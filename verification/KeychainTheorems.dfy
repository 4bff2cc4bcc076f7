/** What every run of the Keychain broker keeps. */
module KeychainTheorems {
  import opened KeychainBroker
  import opened Wrappers

  // ------------------------------------------------------------- coherence

  /** The cache holds denials and values only, and every value is the one in the Keychain. */
  ghost predicate Coherent(cache: Cache, store: Store) {
    forall key <- cache ::
      && (cache[key].response.Value? || cache[key].response.IsDenial())
      && (cache[key].response.Value? ==> key in store && store[key] == cache[key].response.value)
  }

  /** What a reply says about the Keychain. Replies the request's caller would have to
      reject as malformed (an `Ok` to a read, say) are never true. */
  predicate Truthful(request: Request, reply: Reply, store: Store) {
    reply.Failure? || reply.response.IsDenial() ||
    match reply.response
    case Failed => true
    case Value(v) => request.IsRead() && request.key in store && store[request.key] == v
    case Missing => (request.IsRead() || request.CompareAndSet?) && request.key !in store
    case Conflict =>
      && request.key in store
      && (request.CreateIfMissing? || (request.CompareAndSet? && store[request.key] != request.expected))
    case Ok =>
      || request.Invalidate?
      || (request.Delete? && request.key !in store)
      || (request.IsWrite() && request.key in store && store[request.key] == request.password)
    case _ => false
  }

  ghost predicate TruthfulLog(log: seq<Event>) {
    forall e <- log :: e.Finished? ==> Truthful(e.request, e.reply, e.store)
  }

  lemma PerformIsTruthful(request: Request, store: Store, outcome: Outcome)
    ensures var (reply, after) := Perform(request, store, outcome);
            && Truthful(request, reply, after)
            && (forall key :: key != request.key ==>
                 (key in after <==> key in store) && (key in store ==> after[key] == store[key]))
            && (request.IsRead() || request.Invalidate? ==> after == store)
  {
  }

  lemma FallbackIsTruthful(cache: Cache, request: Request, raw: Reply, store: Store)
    requires Truthful(request, raw, store)
    requires request.IsRead() ==> Coherent(cache, store)
    ensures Truthful(request, Fallback(cache, request, raw), store)
  {
  }

  lemma UpdateIsCoherent(cache: Cache, request: Request, reply: Reply, now: Instant, store: Store, after: Store)
    requires Coherent(cache, store) && Truthful(request, reply, after)
    requires forall key :: key != request.key ==>
               (key in after <==> key in store) && (key in store ==> after[key] == store[key])
    requires request.IsRead() ==> after == store
    ensures Coherent(UpdatedCache(cache, request, reply, now), after)
  {
    var updated := UpdatedCache(cache, request, reply, now);
    forall key <- updated
      ensures updated[key].response.Value? || updated[key].response.IsDenial()
      ensures updated[key].response.Value? ==> key in after && after[key] == updated[key].response.value
    {
      assert key != request.key ==> key in cache && updated[key] == cache[key];
    }
  }

  /** One request: the reply is true of the Keychain it leaves, and the cache stays coherent. */
  lemma ServeIsTruthful(request: Request, cache: Cache, store: Store, turn: Turn, interval: nat)
    requires Coherent(cache, store)
    ensures var served := Serve(request, cache, store, turn, interval);
            Truthful(request, served.reply, served.store) && Coherent(served.cache, served.store)
  {
    var hit := Lookup(cache, request, turn.lookedUpAt, interval);
    if hit.None? || request.Invalidate? {
      var (raw, after) := if hit.Some? then (Answer(hit.value), store) else Perform(request, store, turn.outcome);
      PerformIsTruthful(request, store, turn.outcome);
      FallbackIsTruthful(cache, request, raw, after);
      UpdateIsCoherent(cache, request, Fallback(cache, request, raw), turn.updatedAt, store, after);
    }
  }

  /** A cached value is invisible: the answer, and the Keychain afterwards, are those of
      asking a working helper. In particular a skipped write would have written nothing. */
  lemma CachedAnswerIsTheHelpersAnswer(request: Request, cache: Cache, store: Store, turn: Turn, interval: nat)
    requires Coherent(cache, store)
    requires !request.Invalidate?
    requires Lookup(cache, request, turn.lookedUpAt, interval).Some?
    ensures var served := Serve(request, cache, store, turn, interval);
            || served.reply.response.IsDenial()
            || (served.reply, served.store) == Perform(request, store, Works)
  {
    if request.SetIfChanged? {
      assert store[request.key := request.password] == store;
    }
  }

  lemma {:induction false} DrainIsTruthful(arrivals: seq<Queued>, request: Request, reply: Reply, s: State,
                                           times: seq<Instant>, allowed: bool)
    requires TruthfulLog(s.log) && Truthful(request, reply, s.store)
    ensures var t := Drain(arrivals, request, reply, s, times, allowed);
            TruthfulLog(t.log) && t.cache == s.cache && t.store == s.store
    decreases |times|
  {
    if times != [] && s.next < |arrivals| {
      var candidate := arrivals[s.next];
      if allowed && candidate.request.CoalescesWith(request) && times[0] < candidate.deadline {
        var log := s.log + [Started(s.next)] + [Finished(s.next, candidate.request, reply, s.store)];
        DrainIsTruthful(arrivals, request, reply, s.(next := s.next + 1, log := log), times[1..], true);
      } else {
        DrainIsTruthful(arrivals, request, reply, s.(next := s.next + 1, pending := s.pending + [s.next]),
                        times[1..], false);
      }
    }
  }

  lemma StepIsTruthful(arrivals: seq<Queued>, s: State, turn: Turn, interval: nat)
    requires Coherent(s.cache, s.store) && TruthfulLog(s.log)
    ensures var t := Step(arrivals, s, turn, interval);
            Coherent(t.cache, t.store) && TruthfulLog(t.log)
  {
    var index := TakenIndex(s);
    if index < |arrivals| && !Skipped(arrivals[index], turn) {
      var t := Taken(s);
      var request := arrivals[index].request;
      var served := Serve(request, t.cache, t.store, turn, interval);
      ServeIsTruthful(request, t.cache, t.store, turn, interval);
      DrainIsTruthful(arrivals, request, served.reply, Answered(index, request, t, served), turn.drainedAt, true);
    }
  }

  lemma {:induction false} RunIsTruthful(arrivals: seq<Queued>, s: State, turns: seq<Turn>, interval: nat)
    requires Coherent(s.cache, s.store) && TruthfulLog(s.log)
    ensures var t := Run(arrivals, s, turns, interval);
            Coherent(t.cache, t.store) && TruthfulLog(t.log)
    decreases |turns|
  {
    if turns != [] {
      StepIsTruthful(arrivals, s, turns[0], interval);
      RunIsTruthful(arrivals, Step(arrivals, s, turns[0], interval), turns[1..], interval);
    }
  }

  /** In every run the cache agrees with the Keychain and every reply was true when sent. */
  lemma BrokerCoherence(arrivals: seq<Queued>, store: Store, turns: seq<Turn>, interval: nat)
    ensures var t := Run(arrivals, Idle(store), turns, interval);
            Coherent(t.cache, t.store) && TruthfulLog(t.log)
  {
    RunIsTruthful(arrivals, Idle(store), turns, interval);
  }

  // ------------------------------------------------------- replies per request

  /** Everything sent about one request, in order. */
  function RepliesTo(log: seq<Event>, index: nat): seq<Event> {
    if log == [] then []
    else
      var e := log[|log| - 1];
      RepliesTo(log[..|log| - 1], index) + (if e.index == index then [e] else [])
  }

  /** The requests in the order in which they were settled. */
  function Settled(log: seq<Event>): seq<nat> {
    if log == [] then []
    else
      var e := log[|log| - 1];
      Settled(log[..|log| - 1]) + (if e.Started? then [] else [e.index])
  }

  lemma LogGrows(log: seq<Event>, e: Event)
    ensures forall index: nat :: RepliesTo(log + [e], index)
                                 == RepliesTo(log, index) + (if e.index == index then [e] else [])
    ensures Settled(log + [e]) == Settled(log) + (if e.Started? then [] else [e.index])
  {
    assert (log + [e])[..|log|] == log;
  }

  /** An answered request is sent two messages and settled once. */
  lemma AnswerGrows(log: seq<Event>, index: nat, finished: Event)
    requires finished.Finished? && finished.index == index
    ensures var longer := log + [Started(index)] + [finished];
            && (forall i: nat :: RepliesTo(longer, i)
                                 == RepliesTo(log, i) + (if i == index then [Started(index), finished] else []))
            && Settled(longer) == Settled(log) + [index]
  {
    var mid := log + [Started(index)];
    LogGrows(log, Started(index));
    LogGrows(mid, finished);
    forall i: nat
      ensures RepliesTo(mid + [finished], i)
              == RepliesTo(log, i) + (if i == index then [Started(index), finished] else [])
    {
      assert RepliesTo(mid, i) == RepliesTo(log, i) + (if index == i then [Started(index)] else []);
      assert RepliesTo(mid + [finished], i) == RepliesTo(mid, i) + (if index == i then [finished] else []);
    }
  }

  ghost predicate Complete(replies: seq<Event>) {
    || (|replies| == 2 && replies[0].Started? && replies[1].Finished?)
    || (|replies| == 1 && replies[0].Finished? && replies[0].reply == Failure(QueueTimeout))
    || (|replies| == 1 && replies[0].Abandoned?)
  }

  ghost predicate Waiting(s: State, index: nat) { index >= s.next || index in s.pending }

  /** The pending requests were received, and stand in arrival order. */
  ghost predicate Queue(s: State, arrivals: seq<Queued>) {
    && s.next <= |arrivals|
    && (forall i :: 0 <= i < |s.pending| ==> s.pending[i] < s.next)
    && (forall i, j :: 0 <= i < j < |s.pending| ==> s.pending[i] < s.pending[j])
  }

  /** A waiting request has been told nothing; any other has its whole answer. */
  ghost predicate RepliesMatch(s: State) {
    forall i: nat :: if Waiting(s, i) then RepliesTo(s.log, i) == [] else Complete(RepliesTo(s.log, i))
  }

  /** Settled requests are the ones that no longer wait, each settled once. */
  ghost predicate SettledMatch(s: State) {
    && (forall i: nat :: i in Settled(s.log) <==> !Waiting(s, i))
    && (forall i, j :: 0 <= i < j < |Settled(s.log)| ==> Settled(s.log)[i] != Settled(s.log)[j])
  }

  ghost predicate Disciplined(s: State, arrivals: seq<Queued>) {
    Queue(s, arrivals) && RepliesMatch(s) && SettledMatch(s)
  }

  lemma TakenLeavesTheQueue(s: State, arrivals: seq<Queued>)
    requires Queue(s, arrivals) && TakenIndex(s) < |arrivals|
    ensures Queue(Taken(s), arrivals) && Waiting(s, TakenIndex(s))
    ensures forall i: nat :: Waiting(Taken(s), i) <==> Waiting(s, i) && i != TakenIndex(s)
  {
    var t := Taken(s);
    if s.pending != [] {
      assert s.pending == [s.pending[0]] + t.pending;
      assert forall k :: 0 <= k < |t.pending| ==> t.pending[k] == s.pending[k + 1] > s.pending[0];
    }
  }

  lemma SettleOne(s: State, done: State, index: nat, replies: seq<Event>)
    requires RepliesMatch(s) && SettledMatch(s) && Waiting(s, index) && Complete(replies)
    requires forall i: nat :: Waiting(done, i) <==> Waiting(s, i) && i != index
    requires forall i: nat :: RepliesTo(done.log, i) == RepliesTo(s.log, i) + (if i == index then replies else [])
    requires Settled(done.log) == Settled(s.log) + [index]
    ensures RepliesMatch(done) && SettledMatch(done)
  {
    assert index !in Settled(s.log);
    assert [] + replies == replies;
    forall i: nat
      ensures if Waiting(done, i) then RepliesTo(done.log, i) == [] else Complete(RepliesTo(done.log, i))
    {
    }
  }

  lemma AnswerIsDisciplined(arrivals: seq<Queued>, s: State, request: Request, served: Served)
    requires Disciplined(s, arrivals) && TakenIndex(s) < |arrivals|
    ensures Disciplined(Answered(TakenIndex(s), request, Taken(s), served), arrivals)
  {
    var index := TakenIndex(s);
    var finished := Finished(index, request, served.reply, served.store);
    var done := Answered(index, request, Taken(s), served);
    TakenLeavesTheQueue(s, arrivals);
    AnswerGrows(s.log, index, finished);
    assert forall i: nat :: Waiting(done, i) <==> Waiting(Taken(s), i);
    SettleOne(s, done, index, [Started(index), finished]);
  }

  lemma SkipIsDisciplined(arrivals: seq<Queued>, s: State, event: Event)
    requires Disciplined(s, arrivals) && TakenIndex(s) < |arrivals|
    requires event.index == TakenIndex(s)
    requires event.Abandoned? || (event.Finished? && event.reply == Failure(QueueTimeout))
    ensures Disciplined(Taken(s).(log := s.log + [event]), arrivals)
  {
    var done := Taken(s).(log := s.log + [event]);
    TakenLeavesTheQueue(s, arrivals);
    LogGrows(s.log, event);
    assert forall i: nat :: Waiting(done, i) <==> Waiting(Taken(s), i);
    SettleOne(s, done, event.index, [event]);
  }

  lemma PostponedStaysWaiting(arrivals: seq<Queued>, s: State)
    requires Disciplined(s, arrivals) && s.next < |arrivals|
    ensures Disciplined(s.(next := s.next + 1, pending := s.pending + [s.next]), arrivals)
  {
    var t := s.(next := s.next + 1, pending := s.pending + [s.next]);
    assert forall i: nat :: Waiting(t, i) <==> Waiting(s, i);
  }

  lemma CoalescedIsDisciplined(arrivals: seq<Queued>, s: State, request: Request, reply: Reply)
    requires Disciplined(s, arrivals) && s.next < |arrivals|
    ensures var finished := Finished(s.next, request, reply, s.store);
            Disciplined(s.(next := s.next + 1, log := s.log + [Started(s.next)] + [finished]), arrivals)
  {
    var finished := Finished(s.next, request, reply, s.store);
    var t := s.(next := s.next + 1, log := s.log + [Started(s.next)] + [finished]);
    AnswerGrows(s.log, s.next, finished);
    assert s.next !in s.pending;
    assert forall i: nat :: Waiting(t, i) <==> Waiting(s, i) && i != s.next;
    SettleOne(s, t, s.next, [Started(s.next), finished]);
  }

  lemma {:induction false} DrainIsDisciplined(arrivals: seq<Queued>, request: Request, reply: Reply, s: State,
                                              times: seq<Instant>, allowed: bool)
    requires Disciplined(s, arrivals)
    ensures Disciplined(Drain(arrivals, request, reply, s, times, allowed), arrivals)
    decreases |times|
  {
    if times != [] && s.next < |arrivals| {
      var candidate := arrivals[s.next];
      if allowed && candidate.request.CoalescesWith(request) && times[0] < candidate.deadline {
        var finished := Finished(s.next, candidate.request, reply, s.store);
        CoalescedIsDisciplined(arrivals, s, candidate.request, reply);
        DrainIsDisciplined(arrivals, request, reply,
                           s.(next := s.next + 1, log := s.log + [Started(s.next)] + [finished]), times[1..], true);
      } else {
        PostponedStaysWaiting(arrivals, s);
        DrainIsDisciplined(arrivals, request, reply, s.(next := s.next + 1, pending := s.pending + [s.next]),
                           times[1..], false);
      }
    }
  }

  lemma StepIsDisciplined(arrivals: seq<Queued>, s: State, turn: Turn, interval: nat)
    requires Disciplined(s, arrivals)
    ensures Disciplined(Step(arrivals, s, turn, interval), arrivals)
  {
    var index := TakenIndex(s);
    if index < |arrivals| {
      var t := Taken(s);
      var queued := arrivals[index];
      if Skipped(queued, turn) {
        SkipIsDisciplined(arrivals, s, SkipEvent(index, queued, t.store, turn));
      } else {
        var served := Serve(queued.request, t.cache, t.store, turn, interval);
        AnswerIsDisciplined(arrivals, s, queued.request, served);
        DrainIsDisciplined(arrivals, queued.request, served.reply, Answered(index, queued.request, t, served),
                           turn.drainedAt, true);
      }
    }
  }

  lemma {:induction false} RunIsDisciplined(arrivals: seq<Queued>, s: State, turns: seq<Turn>, interval: nat)
    requires Disciplined(s, arrivals)
    ensures Disciplined(Run(arrivals, s, turns, interval), arrivals)
    decreases |turns|
  {
    if turns != [] {
      StepIsDisciplined(arrivals, s, turns[0], interval);
      RunIsDisciplined(arrivals, Step(arrivals, s, turns[0], interval), turns[1..], interval);
    }
  }

  /** In every run a request gets at most two messages, so the two-slot reply channel
      never blocks the broker; and a request that was received and no longer waits has
      got exactly one final answer, unless its caller had gone. */
  lemma EveryRequestIsAnsweredOnce(arrivals: seq<Queued>, store: Store, turns: seq<Turn>, interval: nat, index: nat)
    ensures var t := Run(arrivals, Idle(store), turns, interval);
            && |RepliesTo(t.log, index)| <= 2
            && if Waiting(t, index) then RepliesTo(t.log, index) == [] else Complete(RepliesTo(t.log, index))
  {
    RunIsDisciplined(arrivals, Idle(store), turns, interval);
  }

  // ------------------------------------------------------------------ order

  /** Requests are settled in the order in which they arrived, none left out. */
  ghost predicate InOrder(log: seq<Event>) {
    forall k :: 0 <= k < |Settled(log)| ==> Settled(log)[k] == k
  }

  /** This pass lets a read overtake older requests: it coalesces while others wait. */
  predicate JumpsTheQueue(arrivals: seq<Queued>, s: State, turn: Turn) {
    var index := TakenIndex(s);
    && index < |arrivals| && !Skipped(arrivals[index], turn)
    && var t := Taken(s);
       && t.pending != []
       && turn.drainedAt != [] && t.next < |arrivals|
       && arrivals[t.next].request.CoalescesWith(arrivals[index].request)
       && turn.drainedAt[0] < arrivals[t.next].deadline
  }

  predicate NeverJumps(arrivals: seq<Queued>, s: State, turns: seq<Turn>, interval: nat)
    decreases |turns|
  {
    turns == [] ||
    (!JumpsTheQueue(arrivals, s, turns[0])
     && NeverJumps(arrivals, Step(arrivals, s, turns[0], interval), turns[1..], interval))
  }

  /** What waits is exactly what was received and not yet settled, oldest first. */
  ghost predicate Backlog(s: State) {
    var settled := |Settled(s.log)|;
    && InOrder(s.log)
    && |s.pending| == s.next - settled
    && (forall k :: 0 <= k < |s.pending| ==> s.pending[k] == settled + k)
  }

  lemma {:induction false} DrainKeepsOrder(arrivals: seq<Queued>, request: Request, reply: Reply, s: State,
                                           times: seq<Instant>, allowed: bool)
    requires Backlog(s)
    requires allowed && s.pending != [] && times != [] && s.next < |arrivals| ==>
               !(arrivals[s.next].request.CoalescesWith(request) && times[0] < arrivals[s.next].deadline)
    ensures Backlog(Drain(arrivals, request, reply, s, times, allowed))
    decreases |times|
  {
    if times != [] && s.next < |arrivals| {
      var candidate := arrivals[s.next];
      if allowed && candidate.request.CoalescesWith(request) && times[0] < candidate.deadline {
        var finished := Finished(s.next, candidate.request, reply, s.store);
        AnswerGrows(s.log, s.next, finished);
        DrainKeepsOrder(arrivals, request, reply,
                        s.(next := s.next + 1, log := s.log + [Started(s.next)] + [finished]), times[1..], true);
      } else {
        DrainKeepsOrder(arrivals, request, reply, s.(next := s.next + 1, pending := s.pending + [s.next]),
                        times[1..], false);
      }
    }
  }

  /** Settling the request that was taken keeps the backlog. */
  lemma SettledTakenKeepsBacklog(s: State, done: State)
    requires Backlog(s)
    requires done.pending == Taken(s).pending && done.next == Taken(s).next
    requires Settled(done.log) == Settled(s.log) + [TakenIndex(s)]
    ensures Backlog(done)
  {
  }

  lemma StepKeepsOrder(arrivals: seq<Queued>, s: State, turn: Turn, interval: nat)
    requires Backlog(s) && !JumpsTheQueue(arrivals, s, turn)
    ensures Backlog(Step(arrivals, s, turn, interval))
  {
    var index := TakenIndex(s);
    if index < |arrivals| {
      var t := Taken(s);
      var queued := arrivals[index];
      if Skipped(queued, turn) {
        LogGrows(s.log, SkipEvent(index, queued, t.store, turn));
        SettledTakenKeepsBacklog(s, Step(arrivals, s, turn, interval));
      } else {
        var served := Serve(queued.request, t.cache, t.store, turn, interval);
        var answered := Answered(index, queued.request, t, served);
        AnswerGrows(s.log, index, Finished(index, queued.request, served.reply, served.store));
        SettledTakenKeepsBacklog(s, answered);
        DrainKeepsOrder(arrivals, queued.request, served.reply, answered, turn.drainedAt, true);
      }
    }
  }

  ghost predicate Extends(longer: seq<nat>, shorter: seq<nat>) { shorter <= longer }

  lemma {:induction false} DrainExtends(arrivals: seq<Queued>, request: Request, reply: Reply, s: State,
                                        times: seq<Instant>, allowed: bool)
    ensures Extends(Settled(Drain(arrivals, request, reply, s, times, allowed).log), Settled(s.log))
    decreases |times|
  {
    if times != [] && s.next < |arrivals| {
      var candidate := arrivals[s.next];
      if allowed && candidate.request.CoalescesWith(request) && times[0] < candidate.deadline {
        var finished := Finished(s.next, candidate.request, reply, s.store);
        AnswerGrows(s.log, s.next, finished);
        DrainExtends(arrivals, request, reply,
                     s.(next := s.next + 1, log := s.log + [Started(s.next)] + [finished]), times[1..], true);
      } else {
        DrainExtends(arrivals, request, reply, s.(next := s.next + 1, pending := s.pending + [s.next]),
                     times[1..], false);
      }
    }
  }

  lemma StepExtends(arrivals: seq<Queued>, s: State, turn: Turn, interval: nat)
    ensures Extends(Settled(Step(arrivals, s, turn, interval).log), Settled(s.log))
  {
    var index := TakenIndex(s);
    if index < |arrivals| {
      var t := Taken(s);
      var queued := arrivals[index];
      if Skipped(queued, turn) {
        LogGrows(s.log, SkipEvent(index, queued, t.store, turn));
      } else {
        var served := Serve(queued.request, t.cache, t.store, turn, interval);
        AnswerGrows(s.log, index, Finished(index, queued.request, served.reply, served.store));
        DrainExtends(arrivals, queued.request, served.reply, Answered(index, queued.request, t, served),
                     turn.drainedAt, true);
      }
    }
  }

  lemma {:induction false} RunExtends(arrivals: seq<Queued>, s: State, turns: seq<Turn>, interval: nat)
    ensures Extends(Settled(Run(arrivals, s, turns, interval).log), Settled(s.log))
    decreases |turns|
  {
    if turns != [] {
      StepExtends(arrivals, s, turns[0], interval);
      RunExtends(arrivals, Step(arrivals, s, turns[0], interval), turns[1..], interval);
    }
  }

  /** A jump settles a request while an older one waits, and that cannot be undone. */
  lemma JumpBreaksOrder(arrivals: seq<Queued>, s: State, turn: Turn, interval: nat)
    requires Disciplined(s, arrivals) && JumpsTheQueue(arrivals, s, turn)
    ensures !InOrder(Step(arrivals, s, turn, interval).log)
  {
    var index := TakenIndex(s);
    var request := arrivals[index].request;
    var served := Serve(request, Taken(s).cache, s.store, turn, interval);
    AnswerIsDisciplined(arrivals, s, request, served);
    JumpIsOutOfOrder(arrivals, request, served.reply, Answered(index, request, Taken(s), served), turn.drainedAt);
  }

  lemma JumpIsOutOfOrder(arrivals: seq<Queued>, request: Request, reply: Reply, a: State, times: seq<Instant>)
    requires Disciplined(a, arrivals) && a.pending != [] && times != [] && a.next < |arrivals|
    requires arrivals[a.next].request.CoalescesWith(request) && times[0] < arrivals[a.next].deadline
    ensures !InOrder(Drain(arrivals, request, reply, a, times, true).log)
  {
    var finished := Finished(a.next, arrivals[a.next].request, reply, a.store);
    AnswerGrows(a.log, a.next, finished);
    var b := a.(next := a.next + 1, log := a.log + [Started(a.next)] + [finished]);
    DrainExtends(arrivals, request, reply, b, times[1..], true);
    var final := Settled(Drain(arrivals, request, reply, a, times, true).log);
    var n := |Settled(a.log)|;
    assert Settled(b.log) == Settled(a.log) + [a.next] && Settled(b.log) <= final;
    var oldest := a.pending[0];
    assert Waiting(a, oldest);
    assert final[n] == Settled(b.log)[n] == a.next;
    if oldest < n {
      assert final[oldest] == Settled(b.log)[oldest] == Settled(a.log)[oldest] != oldest;
    } else {
      assert final[n] != n;
    }
  }

  lemma {:induction false} RunKeepsOrder(arrivals: seq<Queued>, s: State, turns: seq<Turn>, interval: nat)
    requires Disciplined(s, arrivals) && Backlog(s)
    ensures InOrder(Run(arrivals, s, turns, interval).log) <==> NeverJumps(arrivals, s, turns, interval)
    decreases |turns|
  {
    if turns != [] {
      var t := Step(arrivals, s, turns[0], interval);
      StepIsDisciplined(arrivals, s, turns[0], interval);
      if JumpsTheQueue(arrivals, s, turns[0]) {
        JumpBreaksOrder(arrivals, s, turns[0], interval);
        RunExtends(arrivals, t, turns[1..], interval);
        var k :| 0 <= k < |Settled(t.log)| && Settled(t.log)[k] != k;
        assert Settled(Run(arrivals, s, turns, interval).log)[k] != k;
      } else {
        StepKeepsOrder(arrivals, s, turns[0], interval);
        RunKeepsOrder(arrivals, t, turns[1..], interval);
      }
    }
  }

  /** The broker settles requests in arrival order exactly in the runs in which no drain
      coalesces while older requests wait. */
  lemma InOrderExactlyWhenNoReadJumps(arrivals: seq<Queued>, store: Store, turns: seq<Turn>, interval: nat)
    ensures InOrder(Run(arrivals, Idle(store), turns, interval).log)
            <==> NeverJumps(arrivals, Idle(store), turns, interval)
  {
    RunKeepsOrder(arrivals, Idle(store), turns, interval);
  }

  /** The arrivals of the run that breaks the order. */
  function Overtaking(other: Key, key: Key): seq<Queued> {
    [Queued(Get(other), 9), Queued(Get(key), 9), Queued(SetIfChanged(key, "new"), 9), Queued(Get(key), 9)]
  }

  /** The state after the first pass: a read and, behind it, a write wait. */
  function ReadThenWriteWait(other: Key, store: Store): State {
    State([1, 2], 3, map[], store, [Started(0), Finished(0, Get(other), Answer(Missing), store)])
  }

  lemma FirstPass(other: Key, key: Key)
    requires other != key
    ensures var store := map[key := "old"];
            Step(Overtaking(other, key), Idle(store), Turn(0, true, 0, Works, 0, [0, 0]), 60)
            == ReadThenWriteWait(other, store)
  {
    var arrivals, store := Overtaking(other, key), map[key := "old"];
    var turn := Turn(0, true, 0, Works, 0, [0, 0]);
    var s0, s1 := Idle(store), ReadThenWriteWait(other, store);
    var a := s0.(next := 1, log := s1.log);
    assert Serve(Get(other), map[], store, turn, 60) == Served(Answer(Missing), map[], store);
    assert [] + [Started(0)] + [s1.log[1]] == s1.log;
    assert [0, 0][1..] == [0] && [0][1..] == [];
    assert Drain(arrivals, Get(other), Answer(Missing), a, [0, 0], true)
        == Drain(arrivals, Get(other), Answer(Missing), a.(next := 2, pending := [1]), [0], false)
        == Drain(arrivals, Get(other), Answer(Missing), s1, [], false);
  }

  lemma SecondPass(other: Key, key: Key)
    requires other != key
    ensures var store := map[key := "old"];
            var s1 := ReadThenWriteWait(other, store);
            var turn := Turn(0, true, 0, Works, 0, [0]);
            var s2 := Step(Overtaking(other, key), s1, turn, 60);
            && JumpsTheQueue(Overtaking(other, key), s1, turn)
            && s2.pending == [2] && s2.next == 4
            && Finished(3, Get(key), Answer(Value("old")), store) in s2.log
  {
    var arrivals, store := Overtaking(other, key), map[key := "old"];
    var turn := Turn(0, true, 0, Works, 0, [0]);
    var s1 := ReadThenWriteWait(other, store);
    var stale := Answer(Value("old"));
    var served := Served(stale, map[key := Cached(Value("old"), 0)], store);
    assert Serve(Get(key), map[], store, turn, 60) == served;
    assert Taken(s1) == s1.(pending := [2]);
    var a := Answered(1, Get(key), Taken(s1), served);
    var last := Finished(3, Get(key), stale, store);
    var s2 := a.(next := 4, log := a.log + [Started(3)] + [last]);
    assert [0][1..] == [];
    assert Drain(arrivals, Get(key), stale, a, [0], true) == Drain(arrivals, Get(key), stale, s2, [], true);
    assert s2.log[|s2.log| - 1] == last;
  }

  /** The order does fail: a read that arrived after a write is answered, before the write
      runs, with what the Keychain held before it. */
  lemma ReadOvertakesWrite(other: Key, key: Key)
    requires other != key
    ensures var turns := [Turn(0, true, 0, Works, 0, [0, 0]), Turn(0, true, 0, Works, 0, [0])];
            var t := Run(Overtaking(other, key), Idle(map[key := "old"]), turns, 60);
            && !InOrder(t.log)
            && t.pending == [2] && RepliesTo(t.log, 2) == []
            && Finished(3, Get(key), Answer(Value("old")), map[key := "old"]) in t.log
  {
    var arrivals, store := Overtaking(other, key), map[key := "old"];
    var turns := [Turn(0, true, 0, Works, 0, [0, 0]), Turn(0, true, 0, Works, 0, [0])];
    FirstPass(other, key);
    SecondPass(other, key);
    var s1 := ReadThenWriteWait(other, store);
    assert turns[1..] == [turns[1]] && [turns[1]][1..] == [];
    assert Run(arrivals, Idle(store), turns, 60) == Run(arrivals, s1, [turns[1]], 60);
    assert !NeverJumps(arrivals, s1, [turns[1]], 60);
    EveryRequestIsAnsweredOnce(arrivals, store, turns, 60, 2);
    InOrderExactlyWhenNoReadJumps(arrivals, store, turns, 60);
  }
}
