/** Refreshes can always be brought to their end: from every world that some interleaving reaches, the calls
    that are under way can be told through, the flights finished and removed, and the jobs completed and
    retired, without a panic or a failure. */
module RefreshProgress {
  import opened RefreshProtocol
  import opened RefreshRegistry
  import opened RefreshTheorems

  /** The actions that only carry on with what was begun. */
  predicate CarriesOn(action: Action) {
    !action.Claim? && !action.Join? && !action.Discover? && !action.Panic? && !action.Fail?
  }

  ghost predicate AllCarryOn(actions: seq<Action>) {
    forall a <- actions :: CarriesOn(a)
  }

  lemma {:induction false} RunAppend(w: World, first: seq<Action>, second: seq<Action>)
    ensures Run(w, first + second) == Run(Run(w, first), second)
    decreases |first|
  {
    hide Step;
    if first == [] {
      assert first + second == second;
    } else {
      assert (first + second)[1..] == first[1..] + second;
      RunAppend(Step(w, first[0]), first[1..], second);
    }
  }

  lemma RunFirst(w: World, action: Action, later: seq<Action>)
    ensures Run(w, [action] + later) == Run(Step(w, action), later)
  {
    assert ([action] + later)[1..] == later;
  }

  lemma NothingToRun(w: World)
    ensures Run(w, []) == w && AllCarryOn([])
  {
  }

  lemma FirstCarriesOn(action: Action, later: seq<Action>)
    requires CarriesOn(action) && AllCarryOn(later)
    ensures AllCarryOn([action] + later)
  {
  }

  // -------------------------------------------------------------- the calls

  /** The call is over: it has told everybody, or a panic cut it. */
  predicate Over(record: Record) {
    record.phase.Cut? || (record.phase.Scanned? && record.phase.untold == {})
  }

  /** Jobs keep their place; flights and registry do not change. */
  ghost predicate OnlyTells(w: World, v: World) {
    && v.flights == w.flights && v.live == w.live && v.registry == w.registry
    && |v.jobs| == |w.jobs| && |v.records| == |w.records|
    && (forall j :: 0 <= j < |w.jobs| ==>
          v.jobs[j].phase == w.jobs[j].phase && v.jobs[j].status == w.jobs[j].status)
    && (forall r :: 0 <= r < |w.records| && Over(w.records[r]) ==> Over(v.records[r]))
  }

  lemma TellsCompose(w: World, u: World, v: World)
    requires OnlyTells(w, u) && OnlyTells(u, v)
    ensures OnlyTells(w, v)
  {
  }

  lemma TellOne(w: World, r: RecordId, j: JobId)
    requires Inv(w) && r < |w.records| && w.records[r].phase.Scanned? && j in w.records[r].phase.untold
    ensures var v := Step(w, Tell(r, j));
            && OnlyTells(w, v) && |v.records| == |w.records| && v.records[r].phase.Scanned?
            && v.records[r].phase.untold == w.records[r].phase.untold - {j}
  {
    assert RecordOk(w, w.records[r]);
    hide Inv;
    hide AppendNew;
  }

  lemma {:induction false} TellEverybody(w: World, r: RecordId) returns (actions: seq<Action>)
    requires Inv(w) && r < |w.records| && w.records[r].phase.Scanned?
    ensures AllCarryOn(actions)
    ensures var v := Run(w, actions); Inv(v) && OnlyTells(w, v) && Over(v.records[r])
    decreases |w.records[r].phase.untold|
  {
    assert w.records[r].phase.untold == {} ==> Over(w.records[r]);
    assert OnlyTells(w, w);
    hide *;
    actions := [];
    NothingToRun(w);
    if w.records[r].phase.untold != {} {
      var j :| j in w.records[r].phase.untold;
      TellOne(w, r, j);
      StepKeepsInv(w, Tell(r, j));
      var v := Step(w, Tell(r, j));
      assert v.records[r].phase.untold < w.records[r].phase.untold;
      SmallerSet(v.records[r].phase.untold, w.records[r].phase.untold);
      var later := TellEverybody(v, r);
      RunFirst(w, Tell(r, j), later);
      TellsCompose(w, v, Run(v, later));
      FirstCarriesOn(Tell(r, j), later);
      actions := [Tell(r, j)] + later;
    }
  }

  lemma ScanOne(w: World, r: RecordId)
    requires Inv(w) && r < |w.records| && w.records[r].phase.Noted?
    ensures var v := Step(w, Scan(r)); OnlyTells(w, v) && |v.records| == |w.records| && v.records[r].phase.Scanned?
  {
    assert RecordOk(w, w.records[r]);
    hide Inv;
  }

  lemma FinishCall(w: World, r: RecordId) returns (actions: seq<Action>)
    requires Inv(w) && r < |w.records|
    ensures AllCarryOn(actions)
    ensures var v := Run(w, actions); Inv(v) && OnlyTells(w, v) && Over(v.records[r])
  {
    assert OnlyTells(w, w) && (w.records[r].phase.Cut? ==> Over(w.records[r]));
    hide *;
    actions := [];
    NothingToRun(w);
    if w.records[r].phase.Noted? {
      ScanOne(w, r);
      StepKeepsInv(w, Scan(r));
      var v := Step(w, Scan(r));
      var later := TellEverybody(v, r);
      RunFirst(w, Scan(r), later);
      TellsCompose(w, v, Run(v, later));
      FirstCarriesOn(Scan(r), later);
      actions := [Scan(r)] + later;
    } else if w.records[r].phase.Scanned? {
      actions := TellEverybody(w, r);
    }
  }

  lemma {:induction false} FinishCalls(w: World, n: nat) returns (actions: seq<Action>)
    requires Inv(w) && n <= |w.records|
    ensures AllCarryOn(actions)
    ensures var v := Run(w, actions);
            Inv(v) && OnlyTells(w, v) && forall r :: 0 <= r < n ==> Over(v.records[r])
  {
    hide Inv;
    hide Over;
    actions := [];
    if n > 0 {
      var first := FinishCalls(w, n - 1);
      var last := FinishCall(Run(w, first), n - 1);
      RunAppend(w, first, last);
      actions := first + last;
    }
  }

  // ------------------------------------------------------------ the flights

  function Remaining(flight: Flight): nat {
    match flight.phase
    case Collecting => 3
    case Written => 2
    case Notified => 1
    case Gone => 0
  }

  /** Only flights move on, and none that is gone. */
  ghost predicate OnlyFlies(w: World, v: World) {
    && v.jobs == w.jobs && v.registry == w.registry && v.records == w.records && |v.flights| == |w.flights|
    && forall f :: 0 <= f < |w.flights| && w.flights[f].phase.Gone? ==> v.flights[f].phase.Gone?
  }

  /** What a flight does next. */
  function NextMove(w: World, f: FlightId): Action
    requires f < |w.flights|
  {
    if w.flights[f].phase.Collecting? then Write(f)
    else if w.flights[f].phase.Written? then Notify(f)
    else Remove(f)
  }

  lemma FlightMovesOn(w: World, f: FlightId)
    requires Inv(w) && f < |w.flights| && !w.flights[f].phase.Gone?
    requires forall r <- w.records :: Over(r)
    ensures var v := Step(w, NextMove(w, f));
            OnlyFlies(w, v) && Remaining(v.flights[f]) == Remaining(w.flights[f]) - 1
  {
    if w.flights[f].phase.Collecting? {
      forall r <- w.records | r.flight == f
        ensures r.phase.Scanned? && r.phase.untold == {}
      {
        var k :| 0 <= k < |w.records| && w.records[k] == r;
        assert RecordOk(w, w.records[k]);
      }
      assert AllTold(w, f);
    }
  }

  lemma {:induction false} FinishFlight(w: World, f: FlightId) returns (actions: seq<Action>)
    requires Inv(w) && f < |w.flights|
    requires forall r <- w.records :: Over(r)
    ensures AllCarryOn(actions)
    ensures var v := Run(w, actions); Inv(v) && OnlyFlies(w, v) && v.flights[f].phase.Gone?
    decreases Remaining(w.flights[f])
  {
    hide Inv;
    hide Step;
    hide Over;
    actions := [];
    if !w.flights[f].phase.Gone? {
      var action := NextMove(w, f);
      FlightMovesOn(w, f);
      StepKeepsInv(w, action);
      var later := FinishFlight(Step(w, action), f);
      RunFirst(w, action, later);
      actions := [action] + later;
    }
  }

  lemma {:induction false} FinishFlights(w: World, n: nat) returns (actions: seq<Action>)
    requires Inv(w) && n <= |w.flights|
    requires forall r <- w.records :: Over(r)
    ensures AllCarryOn(actions)
    ensures var v := Run(w, actions);
            Inv(v) && OnlyFlies(w, v) && forall f :: 0 <= f < n ==> v.flights[f].phase.Gone?
  {
    hide Inv;
    hide Over;
    actions := [];
    if n > 0 {
      var first := FinishFlights(w, n - 1);
      var last := FinishFlight(Run(w, first), n - 1);
      RunAppend(w, first, last);
      actions := first + last;
    }
  }

  // --------------------------------------------------------------- the jobs

  function Ahead(job: Job): nat {
    match job.phase
    case Registered => 5
    case Seeding(_) => 4
    case Claimed => 3
    case Executing => 2
    case Finished => 1
    case Retained => 0
  }

  function Unread(job: Job): set<FlightId> {
    if job.phase.Seeding? then job.phase.unread else {}
  }

  /** How a job that goes on undisturbed ends. */
  function Ending(job: Job): Status {
    if job.status.Failed? then Failed else Completed
  }

  ghost predicate OnlyWorks(w: World, v: World, j: JobId) {
    && v.flights == w.flights && v.live == w.live && v.records == w.records && |v.jobs| == |w.jobs|
    && forall k :: 0 <= k < |w.jobs| ==>
         Ending(v.jobs[k]) == Ending(w.jobs[k]) && (k != j ==> v.jobs[k] == w.jobs[k])
  }

  /** What a job does next, once no flight is live. */
  ghost function NextTask(w: World, j: JobId): Action
    requires j < |w.jobs|
  {
    var job := w.jobs[j];
    match job.phase
    case Registered => ReadFlights(j)
    case Seeding(unread) => if unread == {} then EndSeeding(j) else var f :| f in unread; SeedFrom(j, f)
    case Claimed => Begin(j)
    case Executing => Complete(j)
    case _ => Retain(j)
  }

  /** The job at `j` has moved on, and nothing else has. */
  ghost predicate Advances(w: World, v: World, j: JobId) {
    && OnlyWorks(w, v, j) && j < |w.jobs|
    && (Ahead(v.jobs[j]) < Ahead(w.jobs[j])
        || (Ahead(v.jobs[j]) == Ahead(w.jobs[j]) && |Unread(v.jobs[j])| < |Unread(w.jobs[j])|))
  }

  lemma JobMovesOn(w: World, j: JobId)
    requires Inv(w) && j < |w.jobs| && !w.jobs[j].phase.Retained?
    requires forall f <- w.flights :: f.phase.Gone?
    ensures CarriesOn(NextTask(w, j)) && Advances(w, Step(w, NextTask(w, j)), j)
  {
    var job := w.jobs[j];
    assert JobOk(w, job);
    if job.phase.Registered? {
      ReadingMovesOn(w, j);
    } else if job.phase.Seeding? {
      hide Inv;
      SeedingMovesOn(w, j);
    } else {
      hide Inv;
      WorkingMovesOn(w, j);
    }
  }

  lemma ReadingMovesOn(w: World, j: JobId)
    requires Inv(w) && j < |w.jobs| && w.jobs[j].phase.Registered?
    requires forall f <- w.flights :: f.phase.Gone?
    ensures Advances(w, Step(w, ReadFlights(j)), j)
  {
  }

  lemma SeedingMovesOn(w: World, j: JobId)
    requires j < |w.jobs| && w.jobs[j].phase.Seeding? && JobOk(w, w.jobs[j])
    ensures CarriesOn(NextTask(w, j)) && Advances(w, Step(w, NextTask(w, j)), j)
  {
    var job := w.jobs[j];
    if job.phase.unread != {} {
      hide AppendAll;
      var v := Step(w, NextTask(w, j));
      assert Unread(v.jobs[j]) < Unread(job);
      SmallerSet(Unread(v.jobs[j]), Unread(job));
    }
  }

  lemma WorkingMovesOn(w: World, j: JobId)
    requires j < |w.jobs| && JobOk(w, w.jobs[j])
    requires var phase := w.jobs[j].phase; phase.Claimed? || phase.Executing? || phase.Finished?
    requires forall f <- w.flights :: f.phase.Gone?
    ensures CarriesOn(NextTask(w, j)) && Advances(w, Step(w, NextTask(w, j)), j)
  {
  }

  lemma SmallerSet(a: set<FlightId>, b: set<FlightId>)
    requires a < b
    ensures |a| < |b|
  {
    assert b == a + (b - a);
  }

  lemma {:induction false} FinishJob(w: World, j: JobId) returns (actions: seq<Action>)
    requires Inv(w) && j < |w.jobs|
    requires forall f <- w.flights :: f.phase.Gone?
    ensures AllCarryOn(actions)
    ensures var v := Run(w, actions); Inv(v) && OnlyWorks(w, v, j) && v.jobs[j].phase.Retained?
    decreases Ahead(w.jobs[j]), |Unread(w.jobs[j])|
  {
    hide Inv;
    hide Step;
    hide NextTask;
    hide Ending;
    hide Unread;
    actions := [];
    if !w.jobs[j].phase.Retained? {
      var action := NextTask(w, j);
      JobMovesOn(w, j);
      StepKeepsInv(w, action);
      var later := FinishJob(Step(w, action), j);
      RunFirst(w, action, later);
      actions := [action] + later;
    }
  }

  lemma {:induction false} FinishJobs(w: World, n: nat) returns (actions: seq<Action>)
    requires Inv(w) && n <= |w.jobs|
    requires forall f <- w.flights :: f.phase.Gone?
    ensures AllCarryOn(actions)
    ensures var v := Run(w, actions);
            && Inv(v) && v.flights == w.flights && v.live == w.live && v.records == w.records && |v.jobs| == |w.jobs|
            && (forall j :: 0 <= j < |w.jobs| ==> Ending(v.jobs[j]) == Ending(w.jobs[j]))
            && (forall j :: 0 <= j < n ==> v.jobs[j].phase.Retained?)
  {
    hide Inv;
    hide Ending;
    actions := [];
    if n > 0 {
      var first := FinishJobs(w, n - 1);
      var last := FinishJob(Run(w, first), n - 1);
      RunAppend(w, first, last);
      actions := first + last;
    }
  }

  // --------------------------------------------------------------- theorems

  /** Everything is over: every call, every flight and every job, and the maps are empty. */
  ghost predicate Quiet(w: World) {
    && (forall r <- w.records :: Over(r))
    && (forall f <- w.flights :: f.phase.Gone?) && w.live == map[]
    && (forall job <- w.jobs :: job.phase.Retained? && job.status.IsTerminal()) && w.registry.active == map[]
  }

  lemma WhenAllIsOver(w: World)
    requires Inv(w)
    requires forall r <- w.records :: Over(r)
    requires forall f <- w.flights :: f.phase.Gone?
    requires forall j :: 0 <= j < |w.jobs| ==> w.jobs[j].phase.Retained?
    ensures Quiet(w) && forall j :: 0 <= j < |w.jobs| ==> w.jobs[j].status == Ending(w.jobs[j])
  {
    assert w.live == map[];
    assert w.registry.active == map[];
    forall j | 0 <= j < |w.jobs|
      ensures w.jobs[j].status.IsTerminal()
    {
      assert JobOk(w, w.jobs[j]);
    }
  }

  /** No interleaving can get stuck: from every reachable world the tasks that are under way can bring
      everything to its end without starting anything new, and without a failure: every job that had not
      failed completes. */
  lemma EverythingCanFinish(w: World) returns (actions: seq<Action>)
    requires Reachable(w)
    ensures AllCarryOn(actions)
    ensures var v := Run(w, actions);
            && Quiet(v) && |v.jobs| == |w.jobs| && |v.flights| == |w.flights| && |v.records| == |w.records|
            && forall j :: 0 <= j < |w.jobs| ==> v.jobs[j].status == Ending(w.jobs[j])
  {
    ReachableInv(w);
    hide Inv;
    hide Over;
    hide Ending;
    var calls := FinishCalls(w, |w.records|);
    var u := Run(w, calls);
    var flights := FinishFlights(u, |u.flights|);
    var x := Run(u, flights);
    var jobs := FinishJobs(x, |x.jobs|);
    RunAppend(w, calls, flights);
    RunAppend(w, calls + flights, jobs);
    actions := calls + flights + jobs;
    WhenAllIsOver(Run(x, jobs));
    EndingsStay(w, u);
  }

  lemma EndingsStay(w: World, v: World)
    requires OnlyTells(w, v)
    ensures forall j :: 0 <= j < |w.jobs| ==> Ending(v.jobs[j]) == Ending(w.jobs[j])
  {
  }

  /** A finished flight serves nobody again: once its task has removed it, the next job that needs its
      provider starts a new flight with nothing in it. */
  lemma NextJoinStartsAfresh(w: World, f: FlightId, j: JobId)
    requires Reachable(w) && f < |w.flights| && w.flights[f].phase.Notified?
    requires j < |w.jobs| && w.jobs[j].phase.Executing? && w.jobs[j].scope.Includes(w.flights[f].provider)
    ensures var p, g := w.flights[f].provider, |w.flights|;
            var removed := Step(w, Remove(f));
            var joined := Step(removed, Join(j, p));
            && removed.live == w.live - {p} && removed.flights == w.flights[f := w.flights[f].(phase := Gone)]
            && joined.flights == removed.flights + [Flight(p, Collecting, [], false)]
            && joined.live == removed.live[p := g]
            && joined.jobs[j].joined == w.jobs[j].joined + {g}
  {
    ReachableInv(w);
  }

  /** While a flight is live, everybody who needs its provider shares it. */
  lemma JoinSharesTheFlight(w: World, f: FlightId, j: JobId)
    requires Reachable(w) && f < |w.flights| && !w.flights[f].phase.Gone?
    requires j < |w.jobs| && w.jobs[j].phase.Executing? && w.jobs[j].scope.Includes(w.flights[f].provider)
    ensures var v := Step(w, Join(j, w.flights[f].provider));
            && v.jobs[j].joined == w.jobs[j].joined + {f} && v.flights == w.flights && v.live == w.live
  {
    ReachableInv(w);
  }

  /** A job that was claimed or is at work can fail, and is over then. */
  lemma FailureEndsTheJob(w: World, j: JobId)
    requires Reachable(w) && j < |w.jobs|
    ensures var v := Step(w, Fail(j));
            if w.jobs[j].phase.Claimed? || w.jobs[j].phase.Executing? then
              v == w.(jobs := w.jobs[j := w.jobs[j].(phase := Finished, status := Failed)])
            else
              v == w
  {
  }
}
