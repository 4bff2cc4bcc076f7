/** What one pass of the broker answers, in terms of the Keychain, the times in the cache and what the
    helper does; and, over runs, how old an answer can be. */
module KeychainAnswers {
  import opened KeychainBroker
  import opened Wrappers

  // ------------------------------------------------------------- the helper

  /** What the Keychain says about one item. */
  function Item(store: Store, key: Key): Option<string> {
    if key in store then Some(store[key]) else None
  }

  /** A working helper: the answer and the item afterwards decide each other. A write succeeds exactly when
      its condition held of the item before, and then the item has the new password; a request that does not
      succeed leaves it alone. */
  lemma WorkingHelper(request: Request, store: Store)
    ensures var (reply, after) := Perform(request, store, Works);
            var was, now := Item(store, request.key), Item(after, request.key);
            && reply.Answer?
            && (request.IsRead() ==>
                  now == was && reply.response == if was.Some? then Value(was.value) else Missing)
            && (request.IsWrite() ==>
                  var admitted := match request
                    case CreateIfMissing(_, _) => was.None?
                    case CompareAndSet(_, expected, _) => was == Some(expected)
                    case _ => true;
                  && (reply.response == Ok <==> admitted)
                  && now == (if admitted then Some(request.password) else was)
                  && (!admitted ==> reply.response == if was.None? then Missing else Conflict))
            && (request.Delete? ==> reply.response == Ok && now == None)
  {
  }

  /** A helper that refuses or breaks says so, and the Keychain is as it was or as a working helper would
      have left it: the adversary's choice. */
  lemma FailingHelper(request: Request, store: Store, outcome: Outcome)
    requires !outcome.Works?
    ensures var (reply, after) := Perform(request, store, outcome);
            && after == (if outcome.applied then Perform(request, store, Works).1 else store)
            && reply == match outcome {
                 case Refuses(AuthenticationRefused, _) => Answer(AuthenticationFailed)
                 case Refuses(InteractionRefused, _) => Answer(InteractionRequired)
                 case Refuses(BackendRefused, _) => Answer(Failed)
                 case Breaks(error, _) => Failure(error)
               }
  {
  }

  // --------------------------------------------------------------- one pass

  /** The value accepted last for a key. */
  function Accepted(cache: Cache, key: Key): Option<string> {
    if key in cache && cache[key].response.Value? then Some(cache[key].response.value) else None
  }

  /** What a read that reaches the helper is answered, and what the cache holds for it afterwards. */
  ghost predicate ReadOutcome(request: Request, cache: Cache, store: Store, turn: Turn, served: Served) {
    var key, raw := request.key, Perform(request, store, turn.outcome).0;
    var denied := turn.outcome.Refuses? && !turn.outcome.refusal.BackendRefused?;
    && served.store == store
    && served.reply == (if denied && !request.Authorize? && Accepted(cache, key).Some?
                        then Answer(Value(Accepted(cache, key).value)) else raw)
    && (served.reply.Answer? && served.reply.response.Missing? ==> key !in served.cache)
    && (served.reply.Answer? && (served.reply.response.Value? || denied) ==>
          key in served.cache && served.cache[key] == Cached(served.reply.response, turn.updatedAt))
    && (served.reply.Failure? || served.reply.response.Failed? ==> served.cache == cache)
  }

  /** A silent read is answered from the cache exactly while the answer there is younger than the interval,
      whatever the helper would do. An older one is never used, except that a value accepted earlier stands
      in for a denial. */
  lemma GetIsServed(key: Key, cache: Cache, store: Store, turn: Turn, interval: nat)
    ensures var served := Serve(Get(key), cache, store, turn, interval);
            if key in cache && 0 < interval && turn.lookedUpAt - cache[key].checkedAt < interval then
              served == Served(Answer(cache[key].response), cache, store)
            else
              ReadOutcome(Get(key), cache, store, turn, served)
  {
  }

  /** The other reads always ask the helper. */
  lemma OtherReadsAskTheHelper(request: Request, cache: Cache, store: Store, turn: Turn, interval: nat)
    requires request.Revalidate? || request.Authorize?
    ensures ReadOutcome(request, cache, store, turn, Serve(request, cache, store, turn, interval))
  {
  }

  /** A write is skipped exactly when it is unconditional and its password is the accepted one. Any other
      mutation asks the helper; its success is what the cache believes from then on, and anything else makes
      the cache forget the item. */
  lemma MutationIsServed(request: Request, cache: Cache, store: Store, turn: Turn, interval: nat)
    requires request.IsWrite() || request.Delete?
    ensures var served, key := Serve(request, cache, store, turn, interval), request.key;
            if request.SetIfChanged? && Accepted(cache, key) == Some(request.password) then
              served == Served(Answer(Ok), cache, store)
            else
              && (served.reply, served.store) == Perform(request, store, turn.outcome)
              && (key in served.cache <==> request.IsWrite() && served.reply == Answer(Ok))
              && (key in served.cache ==> served.cache[key] == Cached(Value(request.password), turn.updatedAt))
  {
  }

  /** An invalidation makes the cache forget the item, and does nothing else. */
  lemma InvalidationIsServed(key: Key, cache: Cache, store: Store, turn: Turn, interval: nat)
    ensures Serve(Invalidate(key), cache, store, turn, interval) == Served(Answer(Ok), cache - {key}, store)
  {
  }

  /** What the cache holds about the other items does not change. */
  lemma OtherItemsStayCached(request: Request, cache: Cache, store: Store, turn: Turn, interval: nat, other: Key)
    requires other != request.key
    ensures var after := Serve(request, cache, store, turn, interval).cache;
            (other in after <==> other in cache) && (other in cache ==> after[other] == cache[other])
  {
  }

  // -------------------------------------------------------------- the drain

  /** The first `n` of the requests that the drain finds waiting all coalesce with `request`. */
  ghost predicate Coalesce(arrivals: seq<Queued>, request: Request, from: nat, times: seq<Instant>, n: nat) {
    && from + n <= |arrivals| && n <= |times|
    && forall i :: from <= i < from + n ==>
         request.Get? && arrivals[i].request == request && times[i - from] < arrivals[i].deadline
  }

  /** The messages to `n` coalesced requests. */
  function Echoes(request: Request, reply: Reply, store: Store, from: nat, n: nat): (log: seq<Event>)
    ensures |log| == 2 * n
    ensures forall k :: 0 <= k < n ==>
              log[2 * k] == Started(from + k) && log[2 * k + 1] == Finished(from + k, request, reply, store)
  {
    if n == 0 then []
    else Echoes(request, reply, store, from, n - 1)
         + [Started(from + n - 1), Finished(from + n - 1, request, reply, store)]
  }

  lemma {:induction false} EchoesFirst(request: Request, reply: Reply, store: Store, from: nat, n: nat)
    requires n > 0
    ensures Echoes(request, reply, store, from, n)
            == [Started(from), Finished(from, request, reply, store)] + Echoes(request, reply, store, from + 1, n - 1)
  {
    if n > 1 {
      EchoesFirst(request, reply, store, from, n - 1);
    }
  }

  function Span(from: nat, n: nat): (s: seq<nat>)
    ensures |s| == n
  {
    seq(n, k requires 0 <= k => from + k)
  }

  lemma CoalesceOneMore(arrivals: seq<Queued>, request: Request, from: nat, times: seq<Instant>, n: nat)
    requires from < |arrivals| && times != []
    requires arrivals[from].request.CoalescesWith(request) && times[0] < arrivals[from].deadline
    ensures Coalesce(arrivals, request, from, times, n + 1) <==> Coalesce(arrivals, request, from + 1, times[1..], n)
  {
    assert times == [times[0]] + times[1..];
  }

  lemma NothingCoalesces(arrivals: seq<Queued>, request: Request, from: nat, times: seq<Instant>)
    requires from < |arrivals| && times != []
    ensures Coalesce(arrivals, request, from, times, 0)
    ensures Coalesce(arrivals, request, from, times, 1)
            ==> arrivals[from].request.CoalescesWith(request) && times[0] < arrivals[from].deadline
  {
  }

  /** What the drain leaves when it finds `seen` requests and answers `n` of them. */
  function Drained(request: Request, reply: Reply, s: State, n: nat, seen: nat): State
    requires n <= seen
  {
    s.(next := s.next + seen, pending := s.pending + Span(s.next + n, seen - n),
       log := s.log + Echoes(request, reply, s.store, s.next, n))
  }

  lemma DrainedOneMore(request: Request, reply: Reply, s: State, n: nat, seen: nat)
    requires n <= seen
    ensures var log := s.log + [Started(s.next)] + [Finished(s.next, request, reply, s.store)];
            Drained(request, reply, s.(next := s.next + 1, log := log), n, seen)
            == Drained(request, reply, s, n + 1, seen + 1)
  {
    EchoesFirst(request, reply, s.store, s.next, n + 1);
    var echoes := Echoes(request, reply, s.store, s.next + 1, n);
    assert s.log + [Started(s.next)] + [Finished(s.next, request, reply, s.store)] + echoes
        == s.log + ([Started(s.next), Finished(s.next, request, reply, s.store)] + echoes);
  }

  lemma PostponedOneMore(request: Request, reply: Reply, s: State, seen: nat)
    ensures Drained(request, reply, s.(next := s.next + 1, pending := s.pending + [s.next]), 0, seen)
            == Drained(request, reply, s, 0, seen + 1)
  {
    assert s.pending + [s.next] + Span(s.next + 1, seen) == s.pending + Span(s.next, seen + 1);
  }

  /** The drain answers the longest run of identical reads at the front that are still in time, as long as
      it may coalesce at all, and postpones everything behind them in order. */
  lemma {:induction false} DrainTakesTheLongestRun(arrivals: seq<Queued>, request: Request, reply: Reply, s: State,
                                                   times: seq<Instant>, allowed: bool) returns (n: nat, seen: nat)
    requires s.next <= |arrivals|
    ensures seen == (if |times| < |arrivals| - s.next then |times| else |arrivals| - s.next)
    ensures n <= seen && Coalesce(arrivals, request, s.next, times, n) && (n > 0 ==> allowed)
    ensures n < seen && allowed ==> !Coalesce(arrivals, request, s.next, times, n + 1)
    ensures Drain(arrivals, request, reply, s, times, allowed) == Drained(request, reply, s, n, seen)
    decreases |times|
  {
    hide Drained;
    hide Coalesce;
    if times == [] || s.next >= |arrivals| {
      n, seen := 0, 0;
      NothingDrained(arrivals, request, reply, s, times);
    } else {
      var candidate := arrivals[s.next];
      if allowed && candidate.request.CoalescesWith(request) && times[0] < candidate.deadline {
        var log := s.log + [Started(s.next)] + [Finished(s.next, candidate.request, reply, s.store)];
        n, seen := DrainTakesTheLongestRun(arrivals, request, reply, s.(next := s.next + 1, log := log), times[1..], true);
        DrainedOneMore(candidate.request, reply, s, n, seen);
        CoalesceOneMore(arrivals, request, s.next, times, n);
        CoalesceOneMore(arrivals, request, s.next, times, n + 1);
        n, seen := n + 1, seen + 1;
      } else {
        var postponed := s.(next := s.next + 1, pending := s.pending + [s.next]);
        n, seen := DrainTakesTheLongestRun(arrivals, request, reply, postponed, times[1..], false);
        PostponedOneMore(request, reply, s, seen);
        NothingCoalesces(arrivals, request, s.next, times);
        seen := seen + 1;
      }
    }
  }

  lemma NothingDrained(arrivals: seq<Queued>, request: Request, reply: Reply, s: State, times: seq<Instant>)
    requires s.next <= |arrivals|
    ensures Drained(request, reply, s, 0, 0) == s && Coalesce(arrivals, request, s.next, times, 0)
  {
    assert s.pending + Span(s.next, 0) == s.pending && s.log + [] == s.log;
  }

  lemma {:induction false} DrainKeepsCache(arrivals: seq<Queued>, request: Request, reply: Reply, s: State,
                                           times: seq<Instant>, allowed: bool)
    ensures var t := Drain(arrivals, request, reply, s, times, allowed);
            t.cache == s.cache && t.store == s.store && s.log <= t.log
    decreases |times|
  {
    if times != [] && s.next < |arrivals| {
      var candidate := arrivals[s.next];
      if allowed && candidate.request.CoalescesWith(request) && times[0] < candidate.deadline {
        var log := s.log + [Started(s.next)] + [Finished(s.next, candidate.request, reply, s.store)];
        DrainKeepsCache(arrivals, request, reply, s.(next := s.next + 1, log := log), times[1..], true);
      } else {
        DrainKeepsCache(arrivals, request, reply, s.(next := s.next + 1, pending := s.pending + [s.next]), times[1..], false);
      }
    }
  }

  /** A pass takes the oldest waiting request. At or past its deadline it is refused without being started,
      and the helper is not asked; so is one whose caller has gone, without a word. Any other is started and
      answered before anything else happens. */
  lemma PassSettles(arrivals: seq<Queued>, s: State, turn: Turn, interval: nat)
    requires s.pending != [] ==> s.pending[0] < |arrivals|
    requires s.pending == [] ==> s.next < |arrivals|
    ensures var waits := s.pending != [];
            var index := if waits then s.pending[0] else s.next;
            var queued, t := arrivals[index], Step(arrivals, s, turn, interval);
            var left := if waits then s.(pending := s.pending[1..]) else s.(next := s.next + 1);
            if turn.poppedAt >= queued.deadline then
              t == left.(log := s.log + [Finished(index, queued.request, Failure(QueueTimeout), s.store)])
            else if !turn.receiverAlive then
              t == left.(log := s.log + [Abandoned(index)])
            else
              var served := Serve(queued.request, s.cache, s.store, turn, interval);
              && t.cache == served.cache && t.store == served.store
              && s.log + [Started(index), Finished(index, queued.request, served.reply, served.store)] <= t.log
  {
    var index := TakenIndex(s);
    var queued := arrivals[index];
    if !Skipped(queued, turn) {
      var served := Serve(queued.request, s.cache, s.store, turn, interval);
      var answered := Answered(index, queued.request, Taken(s), served);
      DrainKeepsCache(arrivals, queued.request, served.reply, answered, turn.drainedAt, true);
      assert answered.log == s.log + [Started(index), Finished(index, queued.request, served.reply, served.store)];
    }
  }

  // ------------------------------------------------------ how old answers are

  /** What one pass may teach the cache about `key`: a value the helper found or wrote, a denial it gave, or,
      after a denial, the value accepted before. */
  ghost predicate Teaches(request: Request, cache: Cache, store: Store, turn: Turn, key: Key, entry: Cached) {
    && request.key == key && entry.checkedAt == turn.updatedAt
    && match entry.response
       case Value(v) =>
         || (turn.outcome.Works? && request.IsRead() && Item(store, key) == Some(v))
         || (turn.outcome.Works? && request.IsWrite() && request.password == v)
         || (turn.outcome.Refuses? && request.IsRead() && Accepted(cache, key) == Some(v))
       case AuthenticationFailed => request.IsRead() && turn.outcome.Refuses? && turn.outcome.refusal.AuthenticationRefused?
       case InteractionRequired => request.IsRead() && turn.outcome.Refuses? && turn.outcome.refusal.InteractionRefused?
       case _ => false
  }

  ghost predicate TaughtAt(arrivals: seq<Queued>, store: Store, turns: seq<Turn>, interval: nat, k: nat, key: Key,
                           entry: Cached)
  {
    && k < |turns|
    && var s := Run(arrivals, Idle(store), turns[..k], interval);
       var index := TakenIndex(s);
       && index < |arrivals| && turns[k].poppedAt < arrivals[index].deadline && turns[k].receiverAlive
       && Teaches(arrivals[index].request, s.cache, s.store, turns[k], key, entry)
  }

  lemma ServeTeaches(request: Request, cache: Cache, store: Store, turn: Turn, interval: nat, key: Key)
    requires key in Serve(request, cache, store, turn, interval).cache
    ensures var entry := Serve(request, cache, store, turn, interval).cache[key];
            (key in cache && cache[key] == entry) || Teaches(request, cache, store, turn, key, entry)
  {
    if request.key != key {
      OtherItemsStayCached(request, cache, store, turn, interval, key);
    } else if request.Get? {
      GetIsServed(key, cache, store, turn, interval);
    } else if request.IsRead() {
      OtherReadsAskTheHelper(request, cache, store, turn, interval);
    } else if !request.Invalidate? {
      MutationIsServed(request, cache, store, turn, interval);
    }
  }

  lemma {:induction false} RunOneMore(arrivals: seq<Queued>, s: State, turns: seq<Turn>, turn: Turn, interval: nat)
    ensures Run(arrivals, s, turns + [turn], interval) == Step(arrivals, Run(arrivals, s, turns, interval), turn, interval)
    decreases |turns|
  {
    hide Step;
    if turns == [] {
      assert (turns + [turn])[1..] == [];
    } else {
      assert (turns + [turn])[1..] == turns[1..] + [turn];
      RunOneMore(arrivals, Step(arrivals, s, turns[0], interval), turns[1..], turn, interval);
    }
  }

  /** In every run what the cache holds was learnt by one of its passes, and its age counts from there. */
  lemma {:induction false} CacheHasOrigins(arrivals: seq<Queued>, store: Store, turns: seq<Turn>, interval: nat, key: Key)
    returns (k: nat)
    requires key in Run(arrivals, Idle(store), turns, interval).cache
    ensures TaughtAt(arrivals, store, turns, interval, k, key, Run(arrivals, Idle(store), turns, interval).cache[key])
    decreases |turns|
  {
    if turns == [] {
      assert false;
    } else {
      var n := |turns| - 1;
      var s := Run(arrivals, Idle(store), turns[..n], interval);
      assert turns == turns[..n] + [turns[n]];
      RunOneMore(arrivals, Idle(store), turns[..n], turns[n], interval);
      var t := Step(arrivals, s, turns[n], interval);
      var index := TakenIndex(s);
      if index < |arrivals| {
        PassSettles(arrivals, s, turns[n], interval);
        if turns[n].poppedAt < arrivals[index].deadline && turns[n].receiverAlive {
          ServeTeaches(arrivals[index].request, s.cache, s.store, turns[n], interval, key);
        }
      }
      hide Step;
      hide Serve;
      if key in s.cache && s.cache[key] == t.cache[key] {
        k := CacheHasOrigins(arrivals, store, turns[..n], interval, key);
        assert turns[..n][..k] == turns[..k];
      } else {
        k := n;
      }
    }
  }

  /** In every run a silent read is answered by asking the helper, or with what a pass less than the interval
      ago learnt. */
  lemma SilentReadsAreRecent(arrivals: seq<Queued>, store: Store, turns: seq<Turn>, turn: Turn, interval: nat, key: Key)
    requires var s := Run(arrivals, Idle(store), turns, interval);
      && TakenIndex(s) < |arrivals| && arrivals[TakenIndex(s)].request == Get(key)
      && turn.poppedAt < arrivals[TakenIndex(s)].deadline && turn.receiverAlive
    ensures var s := Run(arrivals, Idle(store), turns, interval);
      exists served: Served ::
        && s.log + [Started(TakenIndex(s)), Finished(TakenIndex(s), Get(key), served.reply, served.store)]
           <= Run(arrivals, Idle(store), turns + [turn], interval).log
        && (ReadOutcome(Get(key), s.cache, s.store, turn, served)
            || exists k: nat, response ::
                 && k < |turns| && TaughtAt(arrivals, store, turns, interval, k, key, Cached(response, turns[k].updatedAt))
                 && turn.lookedUpAt - turns[k].updatedAt < interval
                 && served.reply == Answer(response))
  {
    var s := Run(arrivals, Idle(store), turns, interval);
    RunOneMore(arrivals, Idle(store), turns, turn, interval);
    PassSettles(arrivals, s, turn, interval);
    GetIsServed(key, s.cache, s.store, turn, interval);
    var served := Serve(Get(key), s.cache, s.store, turn, interval);
    if !ReadOutcome(Get(key), s.cache, s.store, turn, served) {
      var k := CacheHasOrigins(arrivals, store, turns, interval, key);
      assert s.cache[key] == Cached(s.cache[key].response, turns[k].updatedAt);
    }
  }
}
