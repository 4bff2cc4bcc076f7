/** Refresh coordination: scoped jobs that share work, one flight per provider, and the
    handshake that gives every job the accounts its flights discover.

    Each constructor of `Action` is one region the source runs under a lock (or one write
    to a cell of its own). A run is any list of actions, so a fact about all runs is a fact
    about all interleavings of the tasks. An action that is not enabled does nothing. */
module RefreshProtocol {
  import opened RefreshRegistry
  import opened Sequences

  type AccountId = string
  type FlightId = nat
  type RecordId = nat
  type Discovery = (ProviderId, AccountId)

  datatype Status = Queued | Running | Completed | Failed
  {
    predicate IsTerminal() { Completed? || Failed? }
  }

  /** Where the tasks working on a job are. */
  datatype JobPhase = Registered // in the registry; the flights are not read yet
                    | Seeding(unread: set<FlightId>)
                    | Claimed
                    | Executing
                    | Finished // terminal status written, registry not updated yet
                    | Retained

  /** `seeded` is history: what the seeding read from the flights. */
  datatype Job = Job(scope: Scope, status: Status, phase: JobPhase,
                     discovered: seq<Discovery>, joined: set<FlightId>, seeded: set<Discovery>)

  datatype FlightPhase = Collecting | Written | Notified | Gone

  datatype Flight = Flight(provider: ProviderId, phase: FlightPhase, discovered: seq<AccountId>, panicked: bool)

  /** One call of `record_account_discovery`. `seen` and `scanAt` are history: the jobs the
      scan found, and how many jobs had been registered when it ran. A call that a panic
      dropped keeps how far it had come. */
  datatype RecordPhase = Noted // the flight has the account
                       | Scanned(seen: set<JobId>, untold: set<JobId>, scanAt: nat)
                       | Cut(seen: set<JobId>, untold: set<JobId>)

  datatype Record = Record(flight: FlightId, account: AccountId, phase: RecordPhase)

  datatype World = World(registry: Registry, jobs: seq<Job>, flights: seq<Flight>,
                         live: map<ProviderId, FlightId>, records: seq<Record>)

  const EMPTY := World(Registry(map[], {}, []), [], [], map[], [])

  datatype Action =
    | Claim(scope: Scope)
    | ReadFlights(job: JobId)
    | SeedFrom(job: JobId, flight: FlightId)
    | EndSeeding(job: JobId)
    | Begin(job: JobId)
    | Join(job: JobId, provider: ProviderId)
    | Complete(job: JobId)
    | Fail(job: JobId)
    | Retain(job: JobId)
    | Discover(flight: FlightId, account: AccountId)
    | Scan(record: RecordId)
    | Tell(record: RecordId, job: JobId)
    | Write(flight: FlightId)
    | Panic(flight: FlightId)
    | Notify(flight: FlightId)
    | Remove(flight: FlightId)

  function AppendNew<T(==)>(xs: seq<T>, x: T): seq<T> { if x in xs then xs else xs + [x] }

  function AppendAll(xs: seq<Discovery>, provider: ProviderId, accounts: seq<AccountId>): (r: seq<Discovery>)
    ensures forall d :: d in r <==> d in xs || (d.0 == provider && d.1 in accounts)
    ensures NoDuplicates(xs) ==> NoDuplicates(r)
    decreases |accounts|
  {
    if accounts == [] then xs
    else AppendAll(AppendNew(xs, (provider, accounts[0])), provider, accounts[1..])
  }

  function WithJob(w: World, j: JobId, job: Job): World
    requires j < |w.jobs|
  {
    w.(jobs := w.jobs[j := job])
  }

  function WithFlight(w: World, f: FlightId, flight: Flight): World
    requires f < |w.flights|
  {
    w.(flights := w.flights[f := flight])
  }

  predicate AllTold(w: World, f: FlightId) {
    forall r <- w.records :: r.flight == f ==> r.phase.Scanned? && r.phase.untold == {}
  }

  predicate ResultsReady(w: World, joined: set<FlightId>) {
    forall f <- joined :: f < |w.flights| && w.flights[f].phase != Collecting
  }

  function CutRecord(record: Record, f: FlightId): Record {
    if record.flight != f then record
    else
      match record.phase
      case Noted => record.(phase := Cut({}, {}))
      case Scanned(seen, untold, _) => if untold == {} then record else record.(phase := Cut(seen, untold))
      case Cut(_, _) => record
  }

  /** A panic drops the calls that are still under way. */
  function CutRecords(records: seq<Record>, f: FlightId): (r: seq<Record>)
    ensures |r| == |records|
    ensures forall i :: 0 <= i < |r| ==> r[i] == CutRecord(records[i], f)
  {
    seq(|records|, i requires 0 <= i < |records| => CutRecord(records[i], f))
  }

  /** The call has told the job of its account. */
  predicate HasTold(record: Record, j: JobId) {
    !record.phase.Noted? && j in record.phase.seen && j !in record.phase.untold
  }

  function ReadFrom(provider: ProviderId, accounts: seq<AccountId>): set<Discovery> {
    set a | a in accounts :: (provider, a)
  }

  function LiveFlights(w: World, scope: Scope): set<FlightId> {
    set p | p in w.live && scope.Includes(p) :: w.live[p]
  }

  function JobStep(w: World, action: Action): World
    requires action.ReadFlights? || action.SeedFrom? || action.EndSeeding? || action.Begin? || action.Join?
             || action.Complete? || action.Fail? || action.Retain?
  {
    var j := action.job;
    if j >= |w.jobs| then w
    else
      var job := w.jobs[j];
      match action
      case ReadFlights(_) =>
        if !job.phase.Registered? then w
        else WithJob(w, j, job.(phase := Seeding(LiveFlights(w, job.scope))))
      case SeedFrom(_, f) =>
        if !(job.phase.Seeding? && f in job.phase.unread && f < |w.flights|) then w
        else
          var found := AppendAll(job.discovered, w.flights[f].provider, w.flights[f].discovered);
          WithJob(w, j, job.(discovered := found, phase := Seeding(job.phase.unread - {f}),
                             seeded := job.seeded + ReadFrom(w.flights[f].provider, w.flights[f].discovered)))
      case EndSeeding(_) =>
        if job.phase != Seeding({}) then w else WithJob(w, j, job.(phase := Claimed))
      case Begin(_) =>
        if !job.phase.Claimed? then w else WithJob(w, j, job.(phase := Executing, status := Running))
      case Join(_, p) =>
        if !(job.phase.Executing? && job.scope.Includes(p)) then w
        else if p in w.live then WithJob(w, j, job.(joined := job.joined + {w.live[p]}))
        else
          var f := |w.flights|;
          WithJob(w, j, job.(joined := job.joined + {f}))
          .(flights := w.flights + [Flight(p, Collecting, [], false)], live := w.live[p := f])
      case Complete(_) =>
        if !(job.phase.Executing? && ResultsReady(w, job.joined)) then w
        else WithJob(w, j, job.(phase := Finished, status := Completed))
      case Fail(_) =>
        if !(job.phase.Claimed? || job.phase.Executing?) then w
        else WithJob(w, j, job.(phase := Finished, status := Failed))
      case Retain(_) =>
        if !job.phase.Finished? then w
        else WithJob(w, j, job.(phase := Retained)).(registry := w.registry.Retain(job.scope, j))
  }

  function FlightStep(w: World, action: Action): World
    requires action.Discover? || action.Write? || action.Panic? || action.Notify? || action.Remove?
  {
    var f := action.flight;
    if f >= |w.flights| then w
    else
      var flight := w.flights[f];
      match action
      case Discover(_, account) =>
        if flight.phase != Collecting then w
        else
          var noted := w.(records := w.records + [Record(f, account, Noted)]);
          // the account goes to the flight the map holds for this provider
          if flight.provider in w.live && w.live[flight.provider] < |w.flights| then
            var g := w.live[flight.provider];
            WithFlight(noted, g, w.flights[g].(discovered := AppendNew(w.flights[g].discovered, account)))
          else noted
      case Write(_) =>
        if !(flight.phase == Collecting && AllTold(w, f)) then w
        else WithFlight(w, f, flight.(phase := Written))
      case Panic(_) =>
        if flight.phase != Collecting then w
        else WithFlight(w, f, flight.(phase := Written, panicked := true)).(records := CutRecords(w.records, f))
      case Notify(_) =>
        if flight.phase != Written then w else WithFlight(w, f, flight.(phase := Notified))
      case Remove(_) =>
        if flight.phase != Notified then w
        else
          var gone := WithFlight(w, f, flight.(phase := Gone));
          if flight.provider in w.live && w.live[flight.provider] == f then
            gone.(live := w.live - {flight.provider})
          else gone
  }

  function RecordStep(w: World, action: Action): World
    requires action.Scan? || action.Tell?
  {
    var r := action.record;
    if r >= |w.records| || w.records[r].flight >= |w.flights| then w
    else
      var record := w.records[r];
      var provider := w.flights[record.flight].provider;
      match action
      case Scan(_) =>
        if !record.phase.Noted? then w
        else
          var active := set key | key in w.registry.active && key.Includes(provider) :: w.registry.active[key];
          w.(records := w.records[r := record.(phase := Scanned(active, active, |w.jobs|))])
      case Tell(_, j) =>
        if !(record.phase.Scanned? && j in record.phase.untold && j < |w.jobs|) then w
        else
          var job := w.jobs[j];
          WithJob(w, j, job.(discovered := AppendNew(job.discovered, (provider, record.account))))
          .(records := w.records[r := record.(phase := Scanned(record.phase.seen, record.phase.untold - {j},
                                                                record.phase.scanAt))])
  }

  function Step(w: World, action: Action): World {
    match action
    case Claim(scope) =>
      if w.registry.Covered(scope) then w // the caller shares an active job
      else
        w.(registry := w.registry.Register(scope, |w.jobs|),
           jobs := w.jobs + [Job(scope, Queued, Registered, [], {}, {})])
    case Discover(_, _) => FlightStep(w, action)
    case Write(_) => FlightStep(w, action)
    case Panic(_) => FlightStep(w, action)
    case Notify(_) => FlightStep(w, action)
    case Remove(_) => FlightStep(w, action)
    case Scan(_) => RecordStep(w, action)
    case Tell(_, _) => RecordStep(w, action)
    case _ => JobStep(w, action)
  }

  function Run(w: World, actions: seq<Action>): World
    decreases |actions|
  {
    if actions == [] then w else Run(Step(w, actions[0]), actions[1..])
  }
}
