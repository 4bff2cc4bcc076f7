/** The registry of refresh jobs: active jobs by scope, and a bounded history of finished
    ones. Provider lists are sorted and deduplicated before they become keys, so a scope
    is a set of providers. */
module RefreshRegistry {
  import opened Sequences

  type ProviderId = string
  type JobId = nat

  const RETAINED_REFRESH_JOBS: nat := 64

  datatype Scope = All | Only(providers: set<ProviderId>)
  {
    predicate Covers(requested: Scope) {
      match (this, requested)
      case (All, _) => true
      case (Only(_), All) => false
      case (Only(mine), Only(theirs)) => theirs <= mine
    }

    predicate Includes(provider: ProviderId) { All? || provider in providers }
  }

  /** Some provider id is longer than all of the given ones. */
  lemma {:induction false} LongerThanAll(ids: set<ProviderId>) returns (length: nat)
    ensures forall p <- ids :: |p| < length
    decreases ids
  {
    if ids == {} {
      length := 0;
    } else {
      var p :| p in ids;
      var rest := LongerThanAll(ids - {p});
      length := if rest <= |p| then |p| + 1 else rest;
      assert forall q <- ids :: q == p || q in ids - {p};
    }
  }

  /** Coverage is inclusion of the providers worked on; no list of providers includes them all. */
  lemma CoversIsInclusion(a: Scope, b: Scope)
    ensures a.Covers(b) <==> forall p :: b.Includes(p) ==> a.Includes(p)
  {
    if a.Only? && b.Only? {
      if !(b.providers <= a.providers) {
        var p :| p in b.providers && p !in a.providers;
        assert b.Includes(p) && !a.Includes(p);
      }
    } else if a.Only? {
      var length := LongerThanAll(a.providers);
      var p: ProviderId := seq(length, i => 'x');
      assert b.Includes(p) && !a.Includes(p);
    }
  }

  datatype Registry = Registry(active: map<Scope, JobId>, byId: set<JobId>, completed: seq<JobId>)
  {
    predicate Covered(requested: Scope) {
      exists key <- active :: key.Covers(requested)
    }

    function Register(scope: Scope, id: JobId): Registry {
      this.(active := active[scope := id], byId := byId + {id})
    }

    function Evict(): Registry
      decreases |completed|
    {
      if |completed| <= RETAINED_REFRESH_JOBS then this
      else this.(byId := byId - {completed[0]}, completed := completed[1..]).Evict()
    }

    function Retain(scope: Scope, id: JobId): Registry {
      var left := if scope in active && active[scope] == id then active - {scope} else active;
      this.(active := left, completed := completed + [id]).Evict()
    }

    /** The ids that can be looked up are the active and the completed ones, each once. */
    ghost predicate Valid() {
      && byId == active.Values + (set id | id in completed)
      && active.Values !! (set id | id in completed)
      && NoDuplicates(completed)
      && |completed| <= RETAINED_REFRESH_JOBS
      && (forall s <- active, t <- active :: s != t ==> active[s] != active[t])
    }
  }

  lemma AddedValue(m: map<Scope, JobId>, scope: Scope, id: JobId)
    requires scope !in m
    ensures m[scope := id].Values == m.Values + {id}
  {
    var n := m[scope := id];
    assert n[scope] == id;
    forall v <- m.Values ensures v in n.Values {
      var s :| s in m && m[s] == v;
      assert n[s] == v;
    }
  }

  lemma RegisterKeepsValid(r: Registry, scope: Scope, id: JobId)
    requires r.Valid() && id !in r.byId && !r.Covered(scope)
    ensures scope !in r.active && r.Register(scope, id).Valid()
  {
    assert scope.Covers(scope);
    AddedValue(r.active, scope, id);
    forall s <- r.active ensures r.active[s] != id {
      assert r.active[s] in r.active.Values;
    }
  }

  /** `Evict` drops the oldest ids until 64 are left. */
  lemma EvictOne(r: Registry)
    requires |r.completed| <= RETAINED_REFRESH_JOBS + 1
    requires NoDuplicates(r.completed)
    ensures var e := r.Evict();
            && e.active == r.active
            && |e.completed| <= RETAINED_REFRESH_JOBS
            && if |r.completed| <= RETAINED_REFRESH_JOBS then e == r
               else e.completed == r.completed[1..]
                    && (set i | i in e.completed) == (set i | i in r.completed) - {r.completed[0]}
                    && e.byId == r.byId - {r.completed[0]}
  {
    if |r.completed| > RETAINED_REFRESH_JOBS {
      var rest := r.completed[1..];
      assert r.completed == [r.completed[0]] + rest;
      assert forall k :: 0 <= k < |rest| ==> rest[k] == r.completed[k + 1] != r.completed[0];
    }
  }

  /** Retiring a job keeps at most 64 finished jobs, the newest ones. */
  lemma RetainKeepsValid(r: Registry, scope: Scope, id: JobId)
    requires r.Valid() && scope in r.active && r.active[scope] == id
    ensures var next := r.Retain(scope, id);
            && next.Valid() && next.active == r.active - {scope}
            && next.completed == (if |r.completed| < 64 then r.completed else r.completed[1..]) + [id]
  {
    var left := r.active - {scope};
    assert left[scope := id] == r.active;
    AddedValue(left, scope, id);
    assert id !in left.Values;
    assert id in r.active.Values;
    assert id !in r.completed;
    var full := r.(active := left, completed := r.completed + [id]);
    assert (set i | i in full.completed) == (set i | i in r.completed) + {id};
    EvictOne(full);
    if |r.completed| == RETAINED_REFRESH_JOBS {
      assert r.completed[0] in r.completed;
      assert full.completed[1..] == r.completed[1..] + [id];
    }
  }

  lemma {:induction false} EvictKeepsActive(r: Registry)
    ensures r.Evict().active == r.active
    decreases |r.completed|
  {
    if |r.completed| > RETAINED_REFRESH_JOBS {
      EvictKeepsActive(r.(byId := r.byId - {r.completed[0]}, completed := r.completed[1..]));
    }
  }

  /** Retiring a job frees its scope only from itself: a scope that has passed on to another job stays there,
      and so do all other scopes. */
  lemma RetainFreesItsOwnScope(r: Registry, scope: Scope, id: JobId)
    ensures var next := r.Retain(scope, id).active;
      && (forall s :: s in next <==> s in r.active && !(s == scope && r.active[s] == id))
      && (forall s <- next :: next[s] == r.active[s])
  {
    var left := if scope in r.active && r.active[scope] == id then r.active - {scope} else r.active;
    EvictKeepsActive(r.(active := left, completed := r.completed + [id]));
  }

  /** The registry as the source keeps it, changed in place under one lock. */
  class RefreshJobs {
    var active: map<Scope, JobId>
    var byId: set<JobId>
    var completed: seq<JobId>

    function Contents(): Registry reads this { Registry(active, byId, completed) }

    constructor ()
      ensures Contents() == Registry(map[], {}, [])
    {
      active, byId, completed := map[], {}, [];
    }

    /** Finds the job that already covers a request, or registers a new one under `newId`. */
    method Claim(scope: Scope, newId: JobId) returns (key: Scope, id: JobId, coalesced: bool)
      modifies this
      ensures key in active && active[key] == id && key.Covers(scope)
      ensures coalesced == old(Contents()).Covered(scope)
      ensures Contents() == if coalesced then old(Contents()) else old(Contents()).Register(scope, newId)
      ensures !coalesced ==> key == scope && id == newId
    {
      var unseen := active.Keys;
      while unseen != {}
        invariant unseen <= active.Keys
        invariant forall k <- active.Keys - unseen :: !k.Covers(scope)
        decreases unseen
      {
        var candidate :| candidate in unseen;
        if candidate.Covers(scope) {
          return candidate, active[candidate], true;
        }
        unseen := unseen - {candidate};
      }
      active := active[scope := newId];
      byId := byId + {newId};
      return scope, newId, false;
    }

    method Retain(scope: Scope, id: JobId)
      modifies this
      ensures Contents() == old(Contents()).Retain(scope, id)
    {
      if scope in active && active[scope] == id {
        active := active - {scope};
      }
      completed := completed + [id];
      while |completed| > RETAINED_REFRESH_JOBS
        invariant Contents().Evict() == old(Contents()).Retain(scope, id)
        decreases |completed|
      {
        byId := byId - {completed[0]};
        completed := completed[1..];
      }
    }
  }
}
