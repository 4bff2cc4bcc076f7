/** Where the accounts of a job come from, and exactly when a panic loses one. */
module RefreshOrigins {
  import opened RefreshProtocol
  import opened RefreshRegistry
  import opened RefreshTheorems

  /** The call at `r` is about the account `d`, whichever flight of the provider made it. */
  predicate IsAbout(w: World, record: Record, d: Discovery) {
    record.flight < |w.flights| && w.flights[record.flight].provider == d.0 && record.account == d.1
  }

  /** Some call about `d` has told job `j`. */
  ghost predicate Told(w: World, d: Discovery, j: JobId) {
    exists r :: 0 <= r < |w.records| && IsAbout(w, w.records[r], d) && HasTold(w.records[r], j)
  }

  ghost predicate OriginOk(w: World, j: JobId, d: Discovery)
    requires j < |w.jobs|
  {
    d in w.jobs[j].discovered <==> d in w.jobs[j].seeded || Told(w, d, j)
  }

  /** A job holds exactly what its seeding read and what calls told it. */
  ghost predicate OriginsOk(w: World) {
    && (forall r, j: JobId :: 0 <= r < |w.records| && HasTold(w.records[r], j) ==> j < |w.jobs|)
    && (forall j, d :: 0 <= j < |w.jobs| ==> OriginOk(w, j, d))
  }

  // ------------------------------------------------------------ the actions

  /** The calls that are there told the same jobs as before, and any new one told nobody. */
  ghost predicate SameTold(w: World, v: World) {
    && |w.records| <= |v.records| && |w.flights| <= |v.flights|
    && (forall f :: 0 <= f < |w.flights| ==> v.flights[f].provider == w.flights[f].provider)
    && (forall r :: 0 <= r < |w.records| ==>
          && v.records[r].flight == w.records[r].flight && v.records[r].account == w.records[r].account
          && forall j :: HasTold(v.records[r], j) <==> HasTold(w.records[r], j))
    && (forall r, j :: |w.records| <= r < |v.records| ==> !HasTold(v.records[r], j))
  }

  lemma ToldStays(w: World, v: World, d: Discovery, j: JobId)
    requires SameTold(w, v) && forall r :: 0 <= r < |w.records| ==> w.records[r].flight < |w.flights|
    ensures Told(v, d, j) <==> Told(w, d, j)
  {
    hide HasTold;
    if Told(w, d, j) {
      var r :| 0 <= r < |w.records| && IsAbout(w, w.records[r], d) && HasTold(w.records[r], j);
      assert IsAbout(v, v.records[r], d) && HasTold(v.records[r], j);
    }
    if Told(v, d, j) {
      var r :| 0 <= r < |v.records| && IsAbout(v, v.records[r], d) && HasTold(v.records[r], j);
      assert r < |w.records| && IsAbout(w, w.records[r], d);
    }
  }

  /** Nothing was told, and the jobs hold what they held; a new job holds nothing. */
  lemma QuietStepKeepsOrigins(w: World, v: World)
    requires RecordsOk(w) && OriginsOk(w) && SameTold(w, v) && |w.jobs| <= |v.jobs|
    requires forall j :: 0 <= j < |w.jobs| ==>
      v.jobs[j].discovered == w.jobs[j].discovered && v.jobs[j].seeded == w.jobs[j].seeded
    requires forall j :: |w.jobs| <= j < |v.jobs| ==> v.jobs[j].discovered == [] && v.jobs[j].seeded == {}
    ensures OriginsOk(v)
  {
    hide HasTold;
    forall r | 0 <= r < |w.records| ensures w.records[r].flight < |w.flights| {
      assert RecordOk(w, w.records[r]);
    }
    forall j, d | 0 <= j < |v.jobs| ensures OriginOk(v, j, d) {
      ToldStays(w, v, d, j);
      if j < |w.jobs| {
        assert OriginOk(w, j, d);
      }
    }
  }

  lemma SeedKeepsOrigins(w: World, j: JobId, f: FlightId)
    requires RecordsOk(w) && OriginsOk(w)
    ensures OriginsOk(Step(w, SeedFrom(j, f)))
  {
    var v := Step(w, SeedFrom(j, f));
    if v != w {
      assert SameTold(w, v);
      forall r | 0 <= r < |w.records| ensures w.records[r].flight < |w.flights| {
        assert RecordOk(w, w.records[r]);
      }
      hide HasTold;
      forall k, d | 0 <= k < |v.jobs| ensures OriginOk(v, k, d) {
        ToldStays(w, v, d, k);
        assert OriginOk(w, k, d);
      }
    }
  }

  lemma TellKeepsOrigins(w: World, r: RecordId, j: JobId)
    requires RecordsOk(w) && OriginsOk(w)
    ensures OriginsOk(Step(w, Tell(r, j)))
  {
    var v := Step(w, Tell(r, j));
    if v != w {
      assert RecordOk(w, w.records[r]);
      var e := (w.flights[w.records[r].flight].provider, w.records[r].account);
      assert forall k :: HasTold(v.records[r], k) <==> HasTold(w.records[r], k) || k == j;
      forall s, k: JobId | 0 <= s < |v.records| && HasTold(v.records[s], k) ensures k < |v.jobs| {
        assert s == r || v.records[s] == w.records[s];
      }
      forall k, d | 0 <= k < |v.jobs| ensures OriginOk(v, k, d) {
        ToldMore(w, v, r, j, d, k);
        assert OriginOk(w, k, d);
      }
    }
  }

  lemma ToldMore(w: World, v: World, r: RecordId, j: JobId, d: Discovery, k: JobId)
    requires r < |w.records| == |v.records| && v.flights == w.flights && v.records == w.records[r := v.records[r]]
    requires v.records[r].flight == w.records[r].flight < |w.flights| && v.records[r].account == w.records[r].account
    requires forall i :: HasTold(v.records[r], i) <==> HasTold(w.records[r], i) || i == j
    ensures Told(v, d, k) <==>
            Told(w, d, k) || (k == j && d == (w.flights[w.records[r].flight].provider, w.records[r].account))
  {
    hide HasTold;
    if Told(w, d, k) {
      var s :| 0 <= s < |w.records| && IsAbout(w, w.records[s], d) && HasTold(w.records[s], k);
      assert IsAbout(v, v.records[s], d) && HasTold(v.records[s], k);
    }
    if k == j && d == (w.flights[w.records[r].flight].provider, w.records[r].account) {
      assert IsAbout(v, v.records[r], d) && HasTold(v.records[r], k);
    }
    if Told(v, d, k) {
      var s :| 0 <= s < |v.records| && IsAbout(v, v.records[s], d) && HasTold(v.records[s], k);
      if s != r || HasTold(w.records[r], k) {
        assert IsAbout(w, w.records[s], d) && HasTold(w.records[s], k);
      }
    }
  }

  lemma PanicKeepsTold(w: World, f: FlightId)
    ensures SameTold(w, Step(w, Panic(f)))
  {
    forall r | 0 <= r < |w.records| {
      CutRecordIs(w.records[r], f);
    }
    hide CutRecord;
    hide HasTold;
  }

  lemma StepKeepsOrigins(w: World, action: Action)
    requires RecordsOk(w) && OriginsOk(w)
    ensures OriginsOk(Step(w, action))
  {
    match action
    case SeedFrom(j, f) => SeedKeepsOrigins(w, j, f);
    case Tell(r, j) => TellKeepsOrigins(w, r, j);
    case Panic(f) =>
      PanicKeepsTold(w, f);
      QuietStepKeepsOrigins(w, Step(w, action));
    case _ => OtherStepKeepsOrigins(w, action);
  }

  lemma OtherStepKeepsOrigins(w: World, action: Action)
    requires RecordsOk(w) && OriginsOk(w) && !action.SeedFrom? && !action.Tell? && !action.Panic?
    ensures OriginsOk(Step(w, action))
  {
    OtherStepTellsNobody(w, action);
    hide OriginsOk;
    hide SameTold;
    hide RecordsOk;
    QuietStepKeepsOrigins(w, Step(w, action));
  }

  lemma OtherStepTellsNobody(w: World, action: Action)
    requires !action.SeedFrom? && !action.Tell? && !action.Panic?
    ensures var v := Step(w, action);
      && SameTold(w, v) && |w.jobs| <= |v.jobs|
      && (forall j :: 0 <= j < |w.jobs| ==>
            v.jobs[j].discovered == w.jobs[j].discovered && v.jobs[j].seeded == w.jobs[j].seeded)
      && (forall j :: |w.jobs| <= j < |v.jobs| ==> v.jobs[j].discovered == [] && v.jobs[j].seeded == {})
  {
  }

  lemma {:induction false} RunKeepsOrigins(w: World, actions: seq<Action>)
    requires Inv(w) && OriginsOk(w)
    ensures Inv(Run(w, actions)) && OriginsOk(Run(w, actions))
    decreases |actions|
  {
    hide Inv;
    hide OriginsOk;
    if actions != [] {
      assert RecordsOk(w) by { InvRecords(w); }
      StepKeepsInv(w, actions[0]);
      StepKeepsOrigins(w, actions[0]);
      RunKeepsOrigins(Step(w, actions[0]), actions[1..]);
    }
  }

  lemma InvRecords(w: World)
    requires Inv(w)
    ensures RecordsOk(w)
  {
  }

  // --------------------------------------------------------------- theorems

  /** In every interleaving a job holds exactly the accounts its seeding read and the accounts a call
      told it. */
  lemma DiscoveriesHaveOrigins(w: World, j: JobId, d: Discovery)
    requires Reachable(w) && j < |w.jobs|
    ensures d in w.jobs[j].discovered <==> d in w.jobs[j].seeded || Told(w, d, j)
  {
    var actions :| Run(EMPTY, actions) == w;
    RunKeepsOrigins(EMPTY, actions);
    assert OriginOk(w, j, d);
  }

  /** Exactly when a completed job misses an account of a flight whose results it returns: a panic cut
      every call of that flight about it, no call about it had told the job, and the seeding had not read
      it. */
  lemma MissingExactlyWhenCut(w: World, j: JobId, f: FlightId, a: AccountId)
    requires Reachable(w) && j < |w.jobs| && w.jobs[j].status.Completed? && f in w.jobs[j].joined
    requires f < |w.flights| && a in w.flights[f].discovered
    ensures var d := (w.flights[f].provider, a);
      d !in w.jobs[j].discovered <==>
      && (forall r <- w.records :: r.flight == f && r.account == a ==> r.phase.Cut?)
      && !Told(w, d, j)
      && d !in w.jobs[j].seeded
  {
    DiscoveryHandshake(w, j, f);
    DiscoveriesHaveOrigins(w, j, (w.flights[f].provider, a));
    hide Told;
  }
}
