/** What every interleaving of the refresh tasks keeps. */
module RefreshTheorems {
  import opened RefreshProtocol
  import opened RefreshRegistry
  import opened Sequences

  // ------------------------------------------------------------- invariants

  /** The map of live flights holds exactly the flights that have not left it. */
  ghost predicate FlightsOk(w: World) {
    && (forall p <- w.live ::
          w.live[p] < |w.flights| && w.flights[w.live[p]].provider == p && w.flights[w.live[p]].phase != Gone)
    && (forall f :: 0 <= f < |w.flights| && w.flights[f].phase != Gone ==>
          w.flights[f].provider in w.live && w.live[w.flights[f].provider] == f)
  }

  ghost predicate RegistryOk(w: World) {
    && w.registry.Valid()
    && (forall s <- w.registry.active ::
          && w.registry.active[s] < |w.jobs|
          && w.jobs[w.registry.active[s]].scope == s && w.jobs[w.registry.active[s]].phase != Retained)
    && (forall j :: 0 <= j < |w.jobs| && w.jobs[j].phase != Retained ==>
          w.jobs[j].scope in w.registry.active && w.registry.active[w.jobs[j].scope] == j)
    && (forall j <- w.registry.completed :: j < |w.jobs| && w.jobs[j].phase == Retained)
  }

  /** Some flight of the provider did record the account. */
  ghost predicate Known(w: World, d: Discovery) {
    exists r :: 0 <= r < |w.records| && w.records[r].flight < |w.flights|
                && w.flights[w.records[r].flight].provider == d.0 && w.records[r].account == d.1
  }

  ghost predicate JobOk(w: World, job: Job) {
    && (job.status.IsTerminal() <==> job.phase.Finished? || job.phase.Retained?)
    && (job.joined != {} ==> job.phase.Executing? || job.phase.Finished? || job.phase.Retained?)
    && (job.phase.Seeding? ==> forall f <- job.phase.unread ::
          f < |w.flights| && job.scope.Includes(w.flights[f].provider))
    && (forall f <- job.joined :: f < |w.flights| && job.scope.Includes(w.flights[f].provider))
    && (job.status.Completed? ==> ResultsReady(w, job.joined))
    && NoDuplicates(job.discovered)
    && (forall d <- job.discovered :: job.scope.Includes(d.0) && Known(w, d))
  }

  ghost predicate JobsOk(w: World) {
    forall j :: 0 <= j < |w.jobs| ==> JobOk(w, w.jobs[j])
  }

  ghost predicate RecordOk(w: World, r: Record) {
    && r.flight < |w.flights|
    && r.account in w.flights[r.flight].discovered
    && (w.flights[r.flight].phase != Collecting ==>
          (r.phase.Scanned? && r.phase.untold == {}) || (r.phase.Cut? && w.flights[r.flight].panicked))
    && (r.phase.Cut? ==> w.flights[r.flight].phase != Collecting)
    && (r.phase.Scanned? ==>
          && r.phase.untold <= r.phase.seen && r.phase.scanAt <= |w.jobs|
          && forall j <- r.phase.seen :: j < r.phase.scanAt)
  }

  ghost predicate RecordsOk(w: World) {
    forall r :: 0 <= r < |w.records| ==> RecordOk(w, w.records[r])
  }

  ghost predicate Recorded(w: World, f: FlightId, a: AccountId) {
    exists r :: 0 <= r < |w.records| && w.records[r].flight == f && w.records[r].account == a
  }

  ghost predicate FlightsRecorded(w: World) {
    forall f, a :: 0 <= f < |w.flights| && a in w.flights[f].discovered ==> Recorded(w, f, a)
  }

  predicate HasJoined(job: Job, f: FlightId) { f in job.joined }

  /** What a scan at `r` guarantees about a job registered before it. */
  ghost predicate OlderJobOk(w: World, r: Record, j: JobId)
    requires r.flight < |w.flights| && j < |w.jobs| && r.phase.Scanned?
  {
    var p := w.flights[r.flight].provider;
    var job := w.jobs[j];
    && (j in r.phase.seen ==> j < r.phase.scanAt && job.scope.Includes(p))
    && (j in r.phase.seen && j !in r.phase.untold ==> (p, r.account) in job.discovered)
    && (j < r.phase.scanAt && job.scope.Includes(p) && job.phase != Retained ==> j in r.phase.seen)
    && (j < r.phase.scanAt && HasJoined(job, r.flight) && !job.status.Failed? ==> j in r.phase.seen)
  }

  /** What the seeding guarantees about a job registered after the scan at `r`. */
  ghost predicate NewerJobOk(w: World, r: Record, j: JobId)
    requires r.flight < |w.flights| && j < |w.jobs| && r.phase.Scanned?
  {
    var p := w.flights[r.flight].provider;
    var job := w.jobs[j];
    r.phase.scanAt <= j && job.scope.Includes(p) && !job.phase.Registered?
    && (w.flights[r.flight].phase != Gone || HasJoined(job, r.flight))
    ==> (p, r.account) in job.discovered || (job.phase.Seeding? && r.flight in job.phase.unread)
  }

  ghost predicate HandshakeOk(w: World)
    requires RecordsOk(w)
  {
    forall r, j :: 0 <= r < |w.records| && 0 <= j < |w.jobs| && w.records[r].phase.Scanned? ==>
      OlderJobOk(w, w.records[r], j) && NewerJobOk(w, w.records[r], j)
  }

  ghost predicate Inv(w: World) {
    FlightsOk(w) && RegistryOk(w) && JobsOk(w) && RecordsOk(w) && FlightsRecorded(w) && HandshakeOk(w)
  }

  // ----------------------------------------------------------- frame lemmas

  /** Flights and records are never forgotten and flights never go back. */
  ghost predicate Grows(w: World, v: World) {
    && |w.flights| <= |v.flights| && |w.records| <= |v.records|
    && (forall f :: 0 <= f < |w.flights| ==>
          && v.flights[f].provider == w.flights[f].provider
          && (w.flights[f].phase != Collecting ==> v.flights[f].phase != Collecting)
          && (w.flights[f].phase == Gone ==> v.flights[f].phase == Gone))
    && (forall r :: 0 <= r < |w.records| ==>
          v.records[r].flight == w.records[r].flight && v.records[r].account == w.records[r].account)
  }

  lemma KnownStaysKnown(w: World, v: World, d: Discovery)
    requires Grows(w, v) && Known(w, d)
    ensures Known(v, d)
  {
    var r :| 0 <= r < |w.records| && w.records[r].flight < |w.flights|
             && w.flights[w.records[r].flight].provider == d.0 && w.records[r].account == d.1;
    assert v.records[r].account == d.1;
  }

  lemma JobStaysOk(w: World, v: World, job: Job)
    requires Grows(w, v) && JobOk(w, job)
    ensures JobOk(v, job)
  {
    forall d <- job.discovered ensures Known(v, d) { KnownStaysKnown(w, v, d); }
  }

  lemma RegistryStaysOk(w: World, v: World)
    requires RegistryOk(w) && v.registry == w.registry && |v.jobs| == |w.jobs|
    requires forall j :: 0 <= j < |w.jobs| ==>
      v.jobs[j].scope == w.jobs[j].scope && (v.jobs[j].phase == Retained <==> w.jobs[j].phase == Retained)
    ensures RegistryOk(v)
  {
  }

  /** One job moves, with what its own invariants and the handshake ask of it. */
  lemma JobMoves(w: World, v: World, j: JobId)
    requires Inv(w) && j < |w.jobs|
    requires v.flights == w.flights && v.live == w.live && v.records == w.records
    requires |v.jobs| == |w.jobs| && v.jobs == w.jobs[j := v.jobs[j]]
    requires JobOk(v, v.jobs[j])
    requires forall r <- w.records :: r.phase.Scanned? ==> OlderJobOk(v, r, j) && NewerJobOk(v, r, j)
    ensures FlightsOk(v) && JobsOk(v) && RecordsOk(v) && FlightsRecorded(v) && HandshakeOk(v)
  {
    forall k | 0 <= k < |v.jobs| ensures JobOk(v, v.jobs[k]) {
      if k != j { JobStaysOk(w, v, w.jobs[k]); }
    }
    forall f, a | 0 <= f < |v.flights| && a in v.flights[f].discovered ensures Recorded(v, f, a) {
      assert Recorded(w, f, a);
    }
    forall r, k | 0 <= r < |v.records| && 0 <= k < |v.jobs| && v.records[r].phase.Scanned?
      ensures OlderJobOk(v, v.records[r], k) && NewerJobOk(v, v.records[r], k)
    {
      assert w.records[r] in w.records;
      if k != j { assert OlderJobOk(w, w.records[r], k) && NewerJobOk(w, w.records[r], k); }
    }
  }

  /** Flights move and calls may be cut; jobs and the registry do not change. */
  lemma FlightsMove(w: World, v: World)
    requires Inv(w) && Grows(w, v)
    requires v.jobs == w.jobs && v.registry == w.registry
    requires FlightsOk(v) && RecordsOk(v) && FlightsRecorded(v)
    requires forall r :: 0 <= r < |v.records| && v.records[r].phase.Scanned? ==>
      r < |w.records| && v.records[r] == w.records[r]
    ensures Inv(v)
  {
    forall k | 0 <= k < |v.jobs| ensures JobOk(v, v.jobs[k]) { JobStaysOk(w, v, w.jobs[k]); }
    forall r, k | 0 <= r < |v.records| && 0 <= k < |v.jobs| && v.records[r].phase.Scanned?
      ensures OlderJobOk(v, v.records[r], k) && NewerJobOk(v, v.records[r], k)
    {
      assert OlderJobOk(w, w.records[r], k) && NewerJobOk(w, w.records[r], k);
    }
  }

  // ------------------------------------------------------------ the actions

  lemma ClaimKeepsInv(w: World, scope: Scope)
    requires Inv(w)
    ensures Inv(Step(w, Claim(scope)))
  {
    if !w.registry.Covered(scope) {
      var v := Step(w, Claim(scope));
      assert |w.jobs| !in w.registry.byId;
      RegisterKeepsValid(w.registry, scope, |w.jobs|);
      forall k | 0 <= k < |v.jobs| ensures JobOk(v, v.jobs[k]) {
        if k < |w.jobs| { JobStaysOk(w, v, w.jobs[k]); }
      }
      forall f, a | 0 <= f < |v.flights| && a in v.flights[f].discovered ensures Recorded(v, f, a) {
        assert Recorded(w, f, a);
      }
      forall r, k | 0 <= r < |v.records| && 0 <= k < |v.jobs| && v.records[r].phase.Scanned?
        ensures OlderJobOk(v, v.records[r], k) && NewerJobOk(v, v.records[r], k)
      {
        assert RecordOk(w, w.records[r]);
        if k < |w.jobs| {
          assert OlderJobOk(w, w.records[r], k) && NewerJobOk(w, w.records[r], k);
        } else {
          assert k !in w.records[r].phase.seen;
        }
      }
      assert RegistryOk(v);
    }
  }

  /** A job changes phase or status, or joins flights; its discoveries stay. */
  lemma PhaseMoves(w: World, v: World, j: JobId)
    requires Inv(w) && j < |w.jobs|
    requires v == w.(jobs := v.jobs) && |v.jobs| == |w.jobs| && v.jobs == w.jobs[j := v.jobs[j]]
    requires v.jobs[j].scope == w.jobs[j].scope && v.jobs[j].discovered == w.jobs[j].discovered
    requires w.jobs[j].phase != Retained && v.jobs[j].phase != Retained
    requires var job := v.jobs[j];
      && (job.status.IsTerminal() <==> job.phase.Finished?)
      && (job.joined != {} ==> job.phase.Executing? || job.phase.Finished?)
      && (job.phase.Seeding? ==> forall f <- job.phase.unread ::
            f < |w.flights| && job.scope.Includes(w.flights[f].provider))
      && (forall f <- job.joined :: f < |w.flights| && job.scope.Includes(w.flights[f].provider))
      && (job.status.Completed? ==> ResultsReady(w, job.joined))
    requires forall r <- w.records :: r.phase.Scanned? && r.flight < |w.flights| ==>
      OlderJobOk(v, r, j) && NewerJobOk(v, r, j)
    ensures Inv(v)
  {
    assert JobOk(w, w.jobs[j]);
    forall d <- v.jobs[j].discovered ensures Known(v, d) { KnownStaysKnown(w, v, d); }
    assert JobOk(v, v.jobs[j]);
    JobMoves(w, v, j);
    RegistryStaysOk(w, v);
  }

  lemma HandshakeAt(w: World, r: Record, j: JobId)
    requires Inv(w) && r in w.records && r.phase.Scanned? && j < |w.jobs|
    ensures RecordOk(w, r) && OlderJobOk(w, r, j) && NewerJobOk(w, r, j)
  {
    var k :| 0 <= k < |w.records| && w.records[k] == r;
    assert RecordOk(w, w.records[k]);
  }

  lemma ReadFlightsKeepsInv(w: World, j: JobId)
    requires Inv(w)
    ensures Inv(Step(w, ReadFlights(j)))
  {
    var v := Step(w, ReadFlights(j));
    if v != w {
      assert JobOk(w, w.jobs[j]);
      forall r <- w.records | r.phase.Scanned? && r.flight < |w.flights|
        ensures OlderJobOk(v, r, j) && NewerJobOk(v, r, j)
      {
        HandshakeAt(w, r, j);
        if w.flights[r.flight].phase != Gone {
          var p := w.flights[r.flight].provider;
          assert p in w.live && w.live[p] == r.flight;
        }
      }
      PhaseMoves(w, v, j);
    }
  }

  lemma QuietJobActionKeepsInv(w: World, action: Action)
    requires Inv(w)
    requires action.EndSeeding? || action.Begin? || action.Complete? || action.Fail?
    ensures Inv(Step(w, action))
  {
    var v := Step(w, action);
    var j := action.job;
    if v != w {
      assert JobOk(w, w.jobs[j]);
      forall r <- w.records | r.phase.Scanned? && r.flight < |w.flights|
        ensures OlderJobOk(v, r, j) && NewerJobOk(v, r, j)
      {
        HandshakeAt(w, r, j);
      }
      PhaseMoves(w, v, j);
    }
  }

  lemma SeededJobOk(w: World, v: World, job: Job, f: FlightId)
    requires JobOk(w, job) && FlightsRecorded(w) && v.flights == w.flights && v.records == w.records
    requires job.phase.Seeding? && f in job.phase.unread && f < |w.flights|
    ensures var found := AppendAll(job.discovered, w.flights[f].provider, w.flights[f].discovered);
            JobOk(v, job.(discovered := found, phase := Seeding(job.phase.unread - {f}),
                          seeded := job.seeded + ReadFrom(w.flights[f].provider, w.flights[f].discovered)))
  {
    var found := AppendAll(job.discovered, w.flights[f].provider, w.flights[f].discovered);
    forall d <- found ensures job.scope.Includes(d.0) && Known(v, d) {
      if d in job.discovered {
        KnownStaysKnown(w, v, d);
      } else {
        assert Recorded(w, f, d.1);
        var r :| 0 <= r < |w.records| && w.records[r].flight == f && w.records[r].account == d.1;
        assert v.records[r].account == d.1;
      }
    }
  }

  lemma SeedKeepsInv(w: World, j: JobId, f: FlightId)
    requires Inv(w)
    ensures Inv(Step(w, SeedFrom(j, f)))
  {
    var v := Step(w, SeedFrom(j, f));
    if v != w {
      var job := w.jobs[j];
      assert JobOk(w, job);
      SeededJobOk(w, v, job, f);
      forall r <- w.records | r.phase.Scanned? ensures OlderJobOk(v, r, j) && NewerJobOk(v, r, j) {
        HandshakeAt(w, r, j);
        var d := (w.flights[r.flight].provider, r.account);
        assert d in job.discovered ==> d in v.jobs[j].discovered;
      }
      JobMoves(w, v, j);
      RegistryStaysOk(w, v);
    }
  }

  lemma LaunchKeepsInv(w: World, p: ProviderId)
    requires Inv(w) && p !in w.live
    ensures Inv(w.(flights := w.flights + [Flight(p, Collecting, [], false)], live := w.live[p := |w.flights|]))
  {
    var v := w.(flights := w.flights + [Flight(p, Collecting, [], false)], live := w.live[p := |w.flights|]);
    forall r | 0 <= r < |v.records| ensures RecordOk(v, v.records[r]) {
      assert RecordOk(w, w.records[r]);
    }
    forall g, a | 0 <= g < |v.flights| && a in v.flights[g].discovered ensures Recorded(v, g, a) {
      assert Recorded(w, g, a);
    }
    FlightsMove(w, v);
  }

  lemma JoinLiveKeepsInv(w: World, j: JobId, f: FlightId)
    requires Inv(w) && j < |w.jobs| && w.jobs[j].phase.Executing?
    requires f < |w.flights| && w.flights[f].phase != Gone && w.jobs[j].scope.Includes(w.flights[f].provider)
    ensures Inv(WithJob(w, j, w.jobs[j].(joined := w.jobs[j].joined + {f})))
  {
    var v := WithJob(w, j, w.jobs[j].(joined := w.jobs[j].joined + {f}));
    assert JobOk(w, w.jobs[j]);
    forall r <- w.records | r.phase.Scanned? && r.flight < |w.flights|
      ensures OlderJobOk(v, r, j) && NewerJobOk(v, r, j)
    {
      HandshakeAt(w, r, j);
    }
    PhaseMoves(w, v, j);
  }

  lemma JoinKeepsInv(w: World, j: JobId, p: ProviderId)
    requires Inv(w)
    ensures Inv(Step(w, Join(j, p)))
  {
    if j < |w.jobs| && w.jobs[j].phase.Executing? && w.jobs[j].scope.Includes(p) {
      if p in w.live {
        JoinLiveKeepsInv(w, j, w.live[p]);
      } else {
        var mid := w.(flights := w.flights + [Flight(p, Collecting, [], false)], live := w.live[p := |w.flights|]);
        LaunchKeepsInv(w, p);
        JoinLiveKeepsInv(mid, j, |w.flights|);
        assert Step(w, Join(j, p)) == WithJob(mid, j, w.jobs[j].(joined := w.jobs[j].joined + {|w.flights|}));
      }
    }
  }

  lemma RetainKeepsInv(w: World, j: JobId)
    requires Inv(w)
    ensures Inv(Step(w, Retain(j)))
  {
    var v := Step(w, Retain(j));
    if v != w {
      assert JobOk(w, w.jobs[j]);
      forall d <- v.jobs[j].discovered ensures Known(v, d) { KnownStaysKnown(w, v, d); }
      forall r <- w.records | r.phase.Scanned? ensures OlderJobOk(v, r, j) && NewerJobOk(v, r, j) {
        var k :| 0 <= k < |w.records| && w.records[k] == r;
        assert OlderJobOk(w, r, j) && NewerJobOk(w, r, j);
      }
      JobMoves(w, v, j);
      RetainKeepsRegistry(w, j);
    }
  }

  lemma RetainKeepsRegistry(w: World, j: JobId)
    requires RegistryOk(w) && j < |w.jobs| && w.jobs[j].phase.Finished?
    ensures RegistryOk(Step(w, Retain(j)))
  {
    var v := Step(w, Retain(j));
    var scope := w.jobs[j].scope;
    RetainKeepsValid(w.registry, scope, j);
    forall k <- v.registry.completed ensures k < |v.jobs| && v.jobs[k].phase == Retained {
      assert k == j || k in w.registry.completed;
    }
  }

  lemma AppendedJobOk(w: World, v: World, job: Job, e: Discovery)
    requires Grows(w, v) && v.flights == w.flights
    requires JobOk(w, job) && job.scope.Includes(e.0) && Known(w, e)
    ensures JobOk(v, job.(discovered := AppendNew(job.discovered, e)))
  {
    var found := AppendNew(job.discovered, e);
    assert NoDuplicates(found);
    forall d <- found ensures job.scope.Includes(d.0) && Known(v, d) { KnownStaysKnown(w, v, d); }
  }

  lemma AppendKeepsInv(w: World, j: JobId, e: Discovery)
    requires Inv(w) && j < |w.jobs| && w.jobs[j].scope.Includes(e.0) && Known(w, e)
    ensures Inv(WithJob(w, j, w.jobs[j].(discovered := AppendNew(w.jobs[j].discovered, e))))
  {
    var job := w.jobs[j];
    var found := AppendNew(job.discovered, e);
    var v := WithJob(w, j, job.(discovered := found));
    assert JobOk(w, job);
    AppendedJobOk(w, v, job, e);
    forall s <- w.records | s.phase.Scanned? ensures OlderJobOk(v, s, j) && NewerJobOk(v, s, j) {
      HandshakeAt(w, s, j);
      var d := (w.flights[s.flight].provider, s.account);
      assert d in job.discovered ==> d in found;
    }
    JobMoves(w, v, j);
    RegistryStaysOk(w, v);
  }

  lemma TellKeepsInv(w: World, r: RecordId, j: JobId)
    requires Inv(w)
    ensures Inv(Step(w, Tell(r, j)))
  {
    var v := Step(w, Tell(r, j));
    if v != w {
      var record := w.records[r];
      HandshakeAt(w, record, j);
      var d := (w.flights[record.flight].provider, record.account);
      var mid := WithJob(w, j, w.jobs[j].(discovered := AppendNew(w.jobs[j].discovered, d)));
      assert Known(w, d);
      AppendKeepsInv(w, j, d);
      forall k | 0 <= k < |mid.jobs| ensures OlderJobOk(v, v.records[r], k) && NewerJobOk(v, v.records[r], k) {
        HandshakeAt(mid, record, k);
      }
      HandshakeAt(mid, record, j);
      RecordMoves(mid, v, r);
    }
  }

  /** One call moves on, having told a job or scanned the registry. */
  lemma RecordMoves(w: World, v: World, r: RecordId)
    requires Inv(w) && r < |w.records|
    requires |v.records| == |w.records| && v == w.(records := w.records[r := v.records[r]])
    requires v.records[r].flight == w.records[r].flight && v.records[r].account == w.records[r].account
    requires RecordOk(v, v.records[r])
    requires v.records[r].phase.Scanned? ==>
      forall j :: 0 <= j < |w.jobs| ==> OlderJobOk(v, v.records[r], j) && NewerJobOk(v, v.records[r], j)
    ensures Inv(v)
  {
    forall k | 0 <= k < |v.jobs| ensures JobOk(v, v.jobs[k]) { JobStaysOk(w, v, w.jobs[k]); }
    forall k | 0 <= k < |v.records| ensures RecordOk(v, v.records[k]) { assert RecordOk(w, w.records[k]); }
    forall f, a | 0 <= f < |v.flights| && a in v.flights[f].discovered ensures Recorded(v, f, a) {
      assert Recorded(w, f, a);
      var k :| 0 <= k < |w.records| && w.records[k].flight == f && w.records[k].account == a;
      assert v.records[k].flight == f;
    }
    forall s, k | 0 <= s < |v.records| && 0 <= k < |v.jobs| && v.records[s].phase.Scanned?
      ensures OlderJobOk(v, v.records[s], k) && NewerJobOk(v, v.records[s], k)
    {
      if s != r { assert OlderJobOk(w, w.records[s], k) && NewerJobOk(w, w.records[s], k); }
    }
    RegistryStaysOk(w, v);
  }

  lemma ScanKeepsInv(w: World, r: RecordId)
    requires Inv(w)
    ensures Inv(Step(w, Scan(r)))
  {
    var v := Step(w, Scan(r));
    if v != w {
      var record := v.records[r];
      var p := w.flights[record.flight].provider;
      assert RecordOk(w, w.records[r]);
      forall j | 0 <= j < |w.jobs| ensures OlderJobOk(v, record, j) && NewerJobOk(v, record, j) {
        assert JobOk(w, w.jobs[j]);
        if w.jobs[j].scope.Includes(p) && w.jobs[j].phase != Retained {
          assert w.jobs[j].scope in w.registry.active && w.registry.active[w.jobs[j].scope] == j;
        }
      }
      RecordMoves(w, v, r);
    }
  }

  lemma DiscoverKeepsInv(w: World, f: FlightId, account: AccountId)
    requires Inv(w)
    ensures Inv(Step(w, Discover(f, account)))
  {
    var v := Step(w, Discover(f, account));
    if f < |w.flights| && w.flights[f].phase == Collecting {
      assert w.live[w.flights[f].provider] == f;
      forall r | 0 <= r < |v.records| ensures RecordOk(v, v.records[r]) {
        if r < |w.records| { assert RecordOk(w, w.records[r]); }
      }
      forall g, a | 0 <= g < |v.flights| && a in v.flights[g].discovered ensures Recorded(v, g, a) {
        if a in w.flights[g].discovered {
          assert Recorded(w, g, a);
          var k :| 0 <= k < |w.records| && w.records[k].flight == g && w.records[k].account == a;
          assert v.records[k].flight == g;
        } else {
          assert v.records[|w.records|] == Record(g, a, Noted);
        }
      }
      FlightsMove(w, v);
    }
  }

  lemma SameRecords(w: World, v: World)
    requires FlightsRecorded(w) && |v.records| == |w.records| && |v.flights| == |w.flights|
    requires forall r :: 0 <= r < |w.records| ==>
      v.records[r].flight == w.records[r].flight && v.records[r].account == w.records[r].account
    requires forall f :: 0 <= f < |w.flights| ==> v.flights[f].discovered == w.flights[f].discovered
    ensures FlightsRecorded(v)
  {
    forall g, a | 0 <= g < |v.flights| && a in v.flights[g].discovered ensures Recorded(v, g, a) {
      assert Recorded(w, g, a);
      var k :| 0 <= k < |w.records| && w.records[k].flight == g && w.records[k].account == a;
      assert v.records[k].flight == g;
    }
  }

  lemma FlightActionKeepsInv(w: World, action: Action)
    requires Inv(w)
    requires action.Write? || action.Notify? || action.Remove?
    ensures Inv(Step(w, action))
  {
    var v := Step(w, action);
    if v != w {
      forall r | 0 <= r < |v.records| ensures RecordOk(v, v.records[r]) {
        assert RecordOk(w, w.records[r]) && w.records[r] in w.records;
      }
      SameRecords(w, v);
      FlightsMove(w, v);
    }
  }

  lemma CutRecordIs(record: Record, f: FlightId)
    ensures var cut := CutRecord(record, f);
      && cut.flight == record.flight && cut.account == record.account
      && (forall j :: HasTold(cut, j) <==> HasTold(record, j))
      && (cut.phase.Scanned? ==> cut == record)
      && (record.flight == f ==> cut.phase.Cut? || (cut.phase.Scanned? && cut.phase.untold == {}))
      && (record.flight != f ==> cut == record)
  {
  }

  lemma PanicKeepsInv(w: World, f: FlightId)
    requires Inv(w)
    ensures Inv(Step(w, Panic(f)))
  {
    var v := Step(w, Panic(f));
    if v != w {
      forall r | 0 <= r < |v.records|
        ensures RecordOk(v, v.records[r])
        ensures v.records[r].phase.Scanned? ==> v.records[r] == w.records[r]
        ensures v.records[r].flight == w.records[r].flight && v.records[r].account == w.records[r].account
      {
        hide CutRecord;
        assert RecordOk(w, w.records[r]);
        CutRecordIs(w.records[r], f);
      }
      hide CutRecords;
      hide CutRecord;
      SameRecords(w, v);
      FlightsMove(w, v);
    }
  }

  lemma StepKeepsInv(w: World, action: Action)
    requires Inv(w)
    ensures Inv(Step(w, action))
  {
    match action
    case Claim(scope) => ClaimKeepsInv(w, scope);
    case SeedFrom(j, f) => SeedKeepsInv(w, j, f);
    case Join(j, p) => JoinKeepsInv(w, j, p);
    case Retain(j) => RetainKeepsInv(w, j);
    case Discover(f, a) => DiscoverKeepsInv(w, f, a);
    case Scan(r) => ScanKeepsInv(w, r);
    case Tell(r, j) => TellKeepsInv(w, r, j);
    case Write(_) => FlightActionKeepsInv(w, action);
    case Panic(f) => PanicKeepsInv(w, f);
    case ReadFlights(j) => ReadFlightsKeepsInv(w, j);
    case Notify(_) => FlightActionKeepsInv(w, action);
    case Remove(_) => FlightActionKeepsInv(w, action);
    case _ => QuietJobActionKeepsInv(w, action);
  }

  lemma {:induction false} RunKeepsInv(w: World, actions: seq<Action>)
    requires Inv(w)
    ensures Inv(Run(w, actions))
    decreases |actions|
  {
    if actions != [] {
      StepKeepsInv(w, actions[0]);
      RunKeepsInv(Step(w, actions[0]), actions[1..]);
    }
  }

  // --------------------------------------------------------------- theorems

  /** The worlds that some interleaving reaches. */
  ghost predicate Reachable(w: World) {
    exists actions :: Run(EMPTY, actions) == w
  }

  lemma ReachableInv(w: World)
    requires Reachable(w)
    ensures Inv(w)
  {
    var actions :| Run(EMPTY, actions) == w;
    RunKeepsInv(EMPTY, actions);
  }

  /** A completed job holds, without duplicates, every account whose recording by one of
      its flights was not cut short; all of them when the flight did not panic; and
      nothing that no flight of a provider in its scope recorded. */
  lemma DiscoveryHandshake(w: World, j: JobId, f: FlightId)
    requires Reachable(w) && j < |w.jobs| && w.jobs[j].status.Completed? && f in w.jobs[j].joined
    ensures f < |w.flights| && NoDuplicates(w.jobs[j].discovered)
    ensures forall r <- w.records :: r.flight == f && !r.phase.Cut? ==>
              (w.flights[f].provider, r.account) in w.jobs[j].discovered
    ensures !w.flights[f].panicked ==> forall a <- w.flights[f].discovered ::
              (w.flights[f].provider, a) in w.jobs[j].discovered
    ensures forall d <- w.jobs[j].discovered :: w.jobs[j].scope.Includes(d.0) && Known(w, d)
  {
    ReachableInv(w);
    var job := w.jobs[j];
    assert JobOk(w, job);
    forall r <- w.records | r.flight == f && !r.phase.Cut?
      ensures (w.flights[f].provider, r.account) in job.discovered
    {
      var k :| 0 <= k < |w.records| && w.records[k] == r;
      assert RecordOk(w, w.records[k]);
      HandshakeAt(w, r, j);
    }
    if !w.flights[f].panicked {
      forall a <- w.flights[f].discovered ensures (w.flights[f].provider, a) in job.discovered {
        assert Recorded(w, f, a);
        var k :| 0 <= k < |w.records| && w.records[k].flight == f && w.records[k].account == a;
        assert RecordOk(w, w.records[k]) && w.records[k] in w.records;
      }
    }
  }

  /** The panic matters: cut between the flight and the registry, an account stays with
      the flight and never reaches the job that returns the flight's results. */
  lemma PanicLosesADiscovery(p: ProviderId, a: AccountId)
    ensures var actions := [Claim(Only({p})), ReadFlights(0), EndSeeding(0), Begin(0), Join(0, p),
                            Discover(0, a), Panic(0), Complete(0)];
            var w := Run(EMPTY, actions);
            && |w.jobs| == 1 && w.jobs[0].status.Completed? && w.jobs[0].joined == {0}
            && |w.flights| == 1 && w.flights[0].discovered == [a] && w.jobs[0].discovered == []
  {
    RunEight(EMPTY, Claim(Only({p})), ReadFlights(0), EndSeeding(0), Begin(0), Join(0, p),
             Discover(0, a), Panic(0), Complete(0));
    StartAlone(p);
    JoinAndPanic(p, a);
  }

  /** A world with one job of one provider, in the given phase. */
  function OneJob(p: ProviderId, status: Status, phase: JobPhase): World {
    World(Registry(map[Only({p}) := 0], {0}, []), [Job(Only({p}), status, phase, [], {}, {})], [], map[], [])
  }

  lemma StartAlone(p: ProviderId)
    ensures Step(Step(Step(Step(EMPTY, Claim(Only({p}))), ReadFlights(0)), EndSeeding(0)), Begin(0))
            == OneJob(p, Running, Executing)
  {
    assert Step(EMPTY, Claim(Only({p}))) == OneJob(p, Queued, Registered);
    var w := OneJob(p, Queued, Registered);
    assert LiveFlights(w, Only({p})) == {};
    assert Step(w, ReadFlights(0)) == OneJob(p, Queued, Seeding({}));
    assert Step(OneJob(p, Queued, Seeding({})), EndSeeding(0)) == OneJob(p, Queued, Claimed);
  }

  lemma JoinAndPanic(p: ProviderId, a: AccountId)
    ensures var w := Step(Step(Step(Step(OneJob(p, Running, Executing), Join(0, p)), Discover(0, a)), Panic(0)),
                          Complete(0));
            && |w.jobs| == 1 && w.jobs[0].status.Completed? && w.jobs[0].joined == {0}
            && |w.flights| == 1 && w.flights[0].discovered == [a] && w.jobs[0].discovered == []
  {
    var start := OneJob(p, Running, Executing);
    var flight := Flight(p, Collecting, [], false);
    var joined := start.jobs[0].(joined := {0});
    var w5 := World(start.registry, [joined], [flight], map[p := 0], []);
    assert start.jobs[0].joined + {0} == {0} && start.flights + [flight] == [flight];
    assert start.jobs[0 := joined] == [joined];
    assert Step(start, Join(0, p)) == w5;
    assert AppendNew([], a) == [] + [a] == [a];
    var w6 := w5.(flights := [flight.(discovered := [a])], records := [Record(0, a, Noted)]);
    assert Step(w5, Discover(0, a)) == w6;
    var w7 := w6.(flights := [Flight(p, Written, [a], true)], records := [Record(0, a, Cut({}, {}))]);
    assert Step(w6, Panic(0)) == w7;
    assert Step(w7, Complete(0)) == w7.(jobs := [joined.(phase := Finished, status := Completed)]);
  }

  lemma RunEight(w: World, a: Action, b: Action, c: Action, d: Action, e: Action, f: Action, g: Action, h: Action)
    ensures Run(w, [a, b, c, d, e, f, g, h])
            == Step(Step(Step(Step(Step(Step(Step(Step(w, a), b), c), d), e), f), g), h)
  {
    RunFour(w, a, b, c, d, [e, f, g, h]);
    RunFour(Step(Step(Step(Step(w, a), b), c), d), e, f, g, h, []);
    assert [a, b, c, d, e, f, g, h] == [a, b, c, d] + [e, f, g, h] && [e, f, g, h] == [e, f, g, h] + [];
  }

  lemma RunFour(w: World, a: Action, b: Action, c: Action, d: Action, rest: seq<Action>)
    ensures Run(w, [a, b, c, d] + rest) == Run(Step(Step(Step(Step(w, a), b), c), d), rest)
  {
    var xs := [a, b, c, d] + rest;
    assert xs[1..] == [b, c, d] + rest && xs[1..][1..] == [c, d] + rest;
    assert xs[1..][1..][1..] == [d] + rest && xs[1..][1..][1..][1..] == rest;
    assert Run(w, xs) == Run(Step(w, a), xs[1..]);
    assert Run(Step(w, a), xs[1..]) == Run(Step(Step(w, a), b), xs[1..][1..]);
    assert Run(Step(Step(w, a), b), xs[1..][1..]) == Run(Step(Step(Step(w, a), b), c), xs[1..][1..][1..]);
  }

  /** No provider is ever refreshed by two flights at once, and the flight that leaves the
      map is the one it holds, its result written. */
  lemma SingleFlight(w: World, f: FlightId, g: FlightId)
    requires Reachable(w) && f < |w.flights| && g < |w.flights|
    requires w.flights[f].phase != Gone && w.flights[g].phase != Gone
    requires w.flights[f].provider == w.flights[g].provider
    ensures f == g && w.flights[f].provider in w.live && w.live[w.flights[f].provider] == f
    ensures Step(w, Remove(f)) != w ==>
              w.flights[f].phase == Notified && w.flights[f].provider !in Step(w, Remove(f)).live
  {
    ReachableInv(w);
  }

  /** The registry in every reachable world: lookups find the active and the newest 64
      finished jobs, each under one id; every unfinished job is active under its scope. */
  lemma RegistryInvariant(w: World)
    requires Reachable(w)
    ensures w.registry.Valid()
    ensures forall j :: 0 <= j < |w.jobs| ==>
      (w.jobs[j].phase != Retained <==> j in w.registry.active.Values)
      && (!w.jobs[j].status.IsTerminal() ==>
            w.jobs[j].scope in w.registry.active && w.registry.active[w.jobs[j].scope] == j)
    ensures forall j <- w.registry.completed :: j < |w.jobs| && w.jobs[j].status.IsTerminal()
  {
    ReachableInv(w);
    forall j | 0 <= j < |w.jobs|
      ensures w.jobs[j].phase != Retained <==> j in w.registry.active.Values
      ensures !w.jobs[j].status.IsTerminal() ==>
                w.jobs[j].scope in w.registry.active && w.registry.active[w.jobs[j].scope] == j
    {
      assert JobOk(w, w.jobs[j]);
      if w.jobs[j].phase != Retained {
        assert w.registry.active[w.jobs[j].scope] in w.registry.active.Values;
      }
    }
    forall j <- w.registry.completed ensures j < |w.jobs| && w.jobs[j].status.IsTerminal() {
      assert JobOk(w, w.jobs[j]);
    }
  }

  /** After a claim an active job covers the request; a new job never takes an active key. */
  lemma ClaimCovers(w: World, scope: Scope)
    requires Reachable(w)
    ensures var v := Step(w, Claim(scope));
            && v.registry.Covered(scope)
            && (forall key <- w.registry.active ::
                  key in v.registry.active && v.registry.active[key] == w.registry.active[key])
            && (|v.jobs| > |w.jobs| ==> v.registry.active[scope] == |w.jobs| && v.jobs[|w.jobs|].scope == scope)
  {
    assert scope.Covers(scope);
  }

  /** A terminal job keeps its status and its results, whatever happens next. */
  lemma {:induction false} TerminalIsFinal(w: World, actions: seq<Action>, j: JobId)
    requires Inv(w) && j < |w.jobs| && w.jobs[j].status.IsTerminal()
    ensures var v := Run(w, actions);
            j < |v.jobs| && v.jobs[j].status == w.jobs[j].status && v.jobs[j].joined == w.jobs[j].joined
    decreases |actions|
  {
    if actions != [] {
      assert JobOk(w, w.jobs[j]);
      var v := Step(w, actions[0]);
      assert v.jobs[j].status == w.jobs[j].status && v.jobs[j].joined == w.jobs[j].joined by {
        TerminalStep(w, actions[0], j);
      }
      StepKeepsInv(w, actions[0]);
      TerminalIsFinal(v, actions[1..], j);
    }
  }

  lemma TerminalStep(w: World, action: Action, j: JobId)
    requires Inv(w) && j < |w.jobs| && (w.jobs[j].phase.Finished? || w.jobs[j].phase.Retained?)
    ensures var v := Step(w, action);
            j < |v.jobs| && v.jobs[j].status == w.jobs[j].status && v.jobs[j].joined == w.jobs[j].joined
  {
    if action.ReadFlights? || action.SeedFrom? || action.EndSeeding? || action.Begin? || action.Join?
       || action.Complete? || action.Fail? || action.Retain? {
      TerminalJobStep(w, action, j);
    } else if action.Scan? || action.Tell? {
      TerminalRecordStep(w, action, j);
    } else {
      assert action.Claim? || Step(w, action) == FlightStep(w, action);
    }
  }

  lemma TerminalJobStep(w: World, action: Action, j: JobId)
    requires j < |w.jobs| && (w.jobs[j].phase.Finished? || w.jobs[j].phase.Retained?)
    requires action.ReadFlights? || action.SeedFrom? || action.EndSeeding? || action.Begin? || action.Join?
             || action.Complete? || action.Fail? || action.Retain?
    ensures var v := JobStep(w, action);
            |v.jobs| == |w.jobs| && v.jobs[j].status == w.jobs[j].status && v.jobs[j].joined == w.jobs[j].joined
  {
  }

  lemma TerminalRecordStep(w: World, action: Action, j: JobId)
    requires j < |w.jobs| && (action.Scan? || action.Tell?)
    ensures var v := RecordStep(w, action);
            |v.jobs| == |w.jobs| && v.jobs[j].status == w.jobs[j].status && v.jobs[j].joined == w.jobs[j].joined
  {
  }
}
