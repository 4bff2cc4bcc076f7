/** The Keychain broker: one thread serves a queue of requests, keeps a time-limited
    read cache, skips unchanged writes, reuses an accepted value when a silent read is
    denied, and answers reads that arrive right behind an identical read.

    The helper process and the clock are adversaries: a `Turn` carries every choice they
    make in one pass of the broker loop, so a theorem over all turn lists is a theorem
    over all runs. */
module KeychainBroker {
  import opened Wrappers

  type Key = (string, string) // service, account
  type Store = map<Key, string>
  type Instant = int

  datatype Request =
    | Authorize(key: Key)
    | Get(key: Key)
    | Revalidate(key: Key)
    | SetIfChanged(key: Key, password: string)
    | CreateIfMissing(key: Key, password: string)
    | CompareAndSet(key: Key, expected: string, password: string)
    | Delete(key: Key)
    | Invalidate(key: Key)
  {
    predicate IsRead() { Authorize? || Get? || Revalidate? }

    predicate IsWrite() { SetIfChanged? || CreateIfMissing? || CompareAndSet? }

    predicate CoalescesWith(other: Request) {
      Get? && other.Get? && key == other.key
    }
  }

  datatype Response = Ok | Value(value: string) | Missing | AuthenticationFailed
                    | InteractionRequired | Failed | Conflict
  {
    predicate IsDenial() { AuthenticationFailed? || InteractionRequired? }
  }

  datatype Error = QueueTimeout | HelperTimeout | HelperUnavailable | InvalidResponse

  datatype Reply = Answer(response: Response) | Failure(error: Error)

  // ---------------------------------------------------------------- the helper

  datatype Refusal = AuthenticationRefused | InteractionRefused | BackendRefused
  {
    function AsResponse(): Response {
      match this
      case AuthenticationRefused => AuthenticationFailed
      case InteractionRefused => InteractionRequired
      case BackendRefused => Failed
    }
  }

  /** What the helper does with one request. A refused or broken mutation may have
      reached the Keychain all the same. */
  datatype Outcome = Works | Refuses(refusal: Refusal, applied: bool) | Breaks(error: Error, applied: bool)

  /** What a request does to the Keychain when it takes effect. */
  function Effect(request: Request, store: Store): Store {
    match request
    case SetIfChanged(key, password) => store[key := password]
    case CreateIfMissing(key, password) => if key in store then store else store[key := password]
    case CompareAndSet(key, expected, password) =>
      if key in store && store[key] == expected then store[key := password] else store
    case Delete(key) => store - {key}
    case _ => store
  }

  function WorkingAnswer(request: Request, store: Store): Response {
    match request
    case SetIfChanged(_, _) => Ok
    case CreateIfMissing(key, _) => if key in store then Conflict else Ok
    case CompareAndSet(key, expected, _) =>
      if key !in store then Missing else if store[key] == expected then Ok else Conflict
    case Delete(_) => Ok
    case Invalidate(_) => Ok
    case _ => if request.key in store then Value(store[request.key]) else Missing
  }

  function Perform(request: Request, store: Store, outcome: Outcome): (Reply, Store) {
    match outcome
    case Works => (Answer(WorkingAnswer(request, store)), Effect(request, store))
    case Refuses(refusal, applied) =>
      (Answer(refusal.AsResponse()), if applied then Effect(request, store) else store)
    case Breaks(error, applied) =>
      (Failure(error), if applied then Effect(request, store) else store)
  }

  // ------------------------------------------------------------- one request

  datatype Cached = Cached(response: Response, checkedAt: Instant)
  {
    /** `Instant::duration_since` saturates at zero. */
    predicate Current(now: Instant, interval: nat) {
      (if now >= checkedAt then now - checkedAt else 0) < interval
    }
  }

  type Cache = map<Key, Cached>

  function Lookup(cache: Cache, request: Request, now: Instant, interval: nat): Option<Response> {
    match request
    case Get(key) =>
      if key in cache && cache[key].Current(now, interval) then Some(cache[key].response) else None
    case SetIfChanged(key, password) =>
      if key in cache && cache[key].response == Value(password) then Some(Ok) else None
    case Invalidate(_) => Some(Ok)
    case _ => None
  }

  /** A denied silent read falls back on a value accepted earlier. */
  function Fallback(cache: Cache, request: Request, reply: Reply): Reply {
    if (request.Get? || request.Revalidate?) && reply.Answer? && reply.response.IsDenial()
       && request.key in cache && cache[request.key].response.Value?
    then Answer(cache[request.key].response)
    else reply
  }

  function UpdatedCache(cache: Cache, request: Request, reply: Reply, now: Instant): Cache {
    if request.IsRead() then
      if reply.Answer? && (reply.response.Value? || reply.response.IsDenial()) then
        cache[request.key := Cached(reply.response, now)]
      else if reply == Answer(Missing) then cache - {request.key}
      else cache
    else if request.IsWrite() && reply == Answer(Ok) then
      cache[request.key := Cached(Value(request.password), now)]
    else cache - {request.key}
  }

  datatype Served = Served(reply: Reply, cache: Cache, store: Store)

  function Serve(request: Request, cache: Cache, store: Store, turn: Turn, interval: nat): Served {
    var hit := Lookup(cache, request, turn.lookedUpAt, interval);
    if hit.Some? && !request.Invalidate? then
      Served(Answer(hit.value), cache, store)
    else
      var (raw, after) := if hit.Some? then (Answer(hit.value), store) else Perform(request, store, turn.outcome);
      var reply := Fallback(cache, request, raw);
      Served(reply, UpdatedCache(cache, request, reply, turn.updatedAt), after)
  }

  // -------------------------------------------------------------- the queue

  datatype Queued = Queued(request: Request, deadline: Instant)

  /** The adversary's choices in one pass of the loop. `drainedAt` has one clock reading
      for each request the drain at the end of the pass finds waiting. */
  datatype Turn = Turn(poppedAt: Instant, receiverAlive: bool, lookedUpAt: Instant,
                       outcome: Outcome, updatedAt: Instant, drainedAt: seq<Instant>)

  /** What the broker sends, and what the Keychain held when it sent it. Requests are
      named by their position in the arrival order. */
  datatype Event =
    | Started(index: nat)
    | Finished(index: nat, request: Request, reply: Reply, store: Store)
    | Abandoned(index: nat) // the caller had gone: `Started` could not be delivered

  datatype State = State(pending: seq<nat>, next: nat, cache: Cache, store: Store, log: seq<Event>)

  function Idle(store: Store): State { State([], 0, map[], store, []) }

  function Drain(arrivals: seq<Queued>, request: Request, reply: Reply, s: State,
                 times: seq<Instant>, allowed: bool): State
    decreases |times|
  {
    if times == [] || s.next >= |arrivals| then s
    else
      var candidate := arrivals[s.next];
      if allowed && candidate.request.CoalescesWith(request) && times[0] < candidate.deadline then
        Drain(arrivals, request, reply,
              s.(next := s.next + 1,
                 log := s.log + [Started(s.next)] + [Finished(s.next, candidate.request, reply, s.store)]),
              times[1..], true)
      else
        Drain(arrivals, request, reply, s.(next := s.next + 1, pending := s.pending + [s.next]), times[1..], false)
  }

  function TakenIndex(s: State): nat { if s.pending != [] then s.pending[0] else s.next }

  /** The state just after `pop_front` or `recv`. */
  function Taken(s: State): State {
    if s.pending != [] then s.(pending := s.pending[1..]) else s.(next := s.next + 1)
  }

  predicate Skipped(queued: Queued, turn: Turn) {
    turn.poppedAt >= queued.deadline || !turn.receiverAlive
  }

  function SkipEvent(index: nat, queued: Queued, store: Store, turn: Turn): Event {
    if turn.poppedAt >= queued.deadline then Finished(index, queued.request, Failure(QueueTimeout), store)
    else Abandoned(index)
  }

  /** The state after the taken request was answered, before the drain. */
  function Answered(index: nat, request: Request, t: State, served: Served): State {
    t.(cache := served.cache, store := served.store,
       log := t.log + [Started(index)] + [Finished(index, request, served.reply, served.store)])
  }

  function Step(arrivals: seq<Queued>, s: State, turn: Turn, interval: nat): State {
    var index := TakenIndex(s);
    if index >= |arrivals| then s // the queue is empty
    else
      var t := Taken(s);
      var queued := arrivals[index];
      if Skipped(queued, turn) then
        t.(log := t.log + [SkipEvent(index, queued, t.store, turn)])
      else
        var served := Serve(queued.request, t.cache, t.store, turn, interval);
        Drain(arrivals, queued.request, served.reply, Answered(index, queued.request, t, served), turn.drainedAt, true)
  }

  function Run(arrivals: seq<Queued>, s: State, turns: seq<Turn>, interval: nat): State
    decreases |turns|
  {
    if turns == [] then s
    else Run(arrivals, Step(arrivals, s, turns[0], interval), turns[1..], interval)
  }

  // ------------------------------------------------------ the imperative broker

  class Broker {
    const arrivals: seq<Queued>
    const interval: nat
    var pending: seq<nat>
    var next: nat
    var readCache: Cache
    var keychain: Store
    var sent: seq<Event>

    function Current(): State reads this { State(pending, next, readCache, keychain, sent) }

    constructor (arrivals: seq<Queued>, interval: nat, keychain: Store)
      ensures this.arrivals == arrivals && this.interval == interval && Current() == Idle(keychain)
    {
      this.arrivals, this.interval := arrivals, interval;
      this.pending, this.next, this.readCache, this.keychain, this.sent := [], 0, map[], keychain, [];
    }

    method UpdateReadCache(request: Request, reply: Reply, now: Instant)
      modifies this`readCache
      ensures readCache == UpdatedCache(old(readCache), request, reply, now)
    {
      if request.IsRead() {
        if reply.Answer? && (reply.response.Value? || reply.response.IsDenial()) {
          readCache := readCache[request.key := Cached(reply.response, now)];
        } else if reply == Answer(Missing) {
          readCache := readCache - {request.key};
        }
      } else if request.IsWrite() && reply == Answer(Ok) {
        readCache := readCache[request.key := Cached(Value(request.password), now)];
      } else {
        readCache := readCache - {request.key};
      }
    }

    method Execute(request: Request, outcome: Outcome) returns (reply: Reply)
      modifies this`keychain
      ensures (reply, keychain) == Perform(request, old(keychain), outcome)
    {
      var (answer, after) := Perform(request, keychain, outcome);
      keychain := after;
      return answer;
    }

    /** One pass of the broker loop. */
    method RunOnce(turn: Turn)
      modifies this
      ensures Current() == Step(arrivals, old(Current()), turn, interval)
    {
      var index;
      if pending != [] {
        index := pending[0];
        if index >= |arrivals| { return; }
        pending := pending[1..];
      } else if next < |arrivals| {
        index := next;
        next := next + 1;
      } else {
        return;
      }
      var queued := arrivals[index];
      if turn.poppedAt >= queued.deadline {
        sent := sent + [Finished(index, queued.request, Failure(QueueTimeout), keychain)];
        return;
      }
      if !turn.receiverAlive {
        sent := sent + [Abandoned(index)];
        return;
      }
      sent := sent + [Started(index)];
      var request := queued.request;
      var cached := Lookup(readCache, request, turn.lookedUpAt, interval);
      var result;
      if cached.Some? {
        result := Answer(cached.value);
      } else {
        result := Execute(request, turn.outcome);
      }
      if cached.None? || request.Invalidate? {
        result := Fallback(readCache, request, result);
        UpdateReadCache(request, result, turn.updatedAt);
      }
      sent := sent + [Finished(index, request, result, keychain)];
      DrainQueue(request, result, turn.drainedAt);
    }

    method DrainQueue(request: Request, result: Reply, times: seq<Instant>)
      modifies this`pending, this`next, this`sent
      ensures Current() == Drain(arrivals, request, result, old(Current()), times, true)
    {
      var coalescingAllowed := true;
      var i := 0;
      while i < |times| && next < |arrivals|
        invariant 0 <= i <= |times|
        invariant readCache == old(readCache) && keychain == old(keychain)
        invariant Drain(arrivals, request, result, Current(), times[i..], coalescingAllowed)
                  == Drain(arrivals, request, result, old(Current()), times, true)
      {
        var candidate := arrivals[next];
        assert times[i..][1..] == times[i + 1..];
        if coalescingAllowed && candidate.request.CoalescesWith(request) && times[i] < candidate.deadline {
          sent := sent + [Started(next)];
          sent := sent + [Finished(next, candidate.request, result, keychain)];
        } else {
          coalescingAllowed := false;
          pending := pending + [next];
        }
        next := next + 1;
        i := i + 1;
      }
    }

    method RunAll(turns: seq<Turn>)
      modifies this
      ensures Current() == Run(arrivals, old(Current()), turns, interval)
    {
      var i := 0;
      while i < |turns|
        invariant 0 <= i <= |turns|
        invariant Run(arrivals, Current(), turns[i..], interval) == Run(arrivals, old(Current()), turns, interval)
      {
        assert turns[i..][1..] == turns[i + 1..];
        RunOnce(turns[i]);
        i := i + 1;
      }
    }
  }
}
