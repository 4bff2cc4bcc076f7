/** How a refresh job and a provider flight hand their result to the tasks that wait for
    it: a cell written once, and a notifier whose `notify_waiters` wakes every waiter that
    registered before the call and nobody else. A waiter registers, then reads the cell,
    and sleeps only when the cell was empty. */
module Wakeup {
  import opened Wrappers

  /** `ticket` counts the notifications that had been sent when the waiter registered. */
  datatype Waiter<T> = Starting | Registered(ticket: nat) | Asleep(ticket: nat) | Returned(result: T)

  datatype Owner = Working | Stored | Notified

  datatype State<T> = State(cell: Option<T>, notifications: nat, owner: Owner, waiters: seq<Waiter<T>>)

  datatype Action<T> = Arrive | Advance(waiter: nat) | Store(result: T) | Notify

  /** The next thing one waiter does. A sleeper that was not notified cannot move. */
  function Advanced<T>(s: State<T>, waiter: Waiter<T>): Waiter<T> {
    match waiter
    case Starting => Registered(s.notifications)
    case Registered(ticket) => if s.cell.Some? then Returned(s.cell.value) else Asleep(ticket)
    case Asleep(ticket) => if ticket < s.notifications then Starting else waiter
    case Returned(_) => waiter
  }

  function Step<T>(s: State<T>, action: Action<T>): State<T> {
    match action
    case Arrive => s.(waiters := s.waiters + [Starting])
    case Advance(i) =>
      if i < |s.waiters| then s.(waiters := s.waiters[i := Advanced(s, s.waiters[i])]) else s
    case Store(result) => if s.owner.Working? then s.(cell := Some(result), owner := Stored) else s
    case Notify => if s.owner.Stored? then s.(notifications := s.notifications + 1, owner := Notified) else s
  }

  function Run<T>(s: State<T>, actions: seq<Action<T>>): State<T>
    decreases |actions|
  {
    if actions == [] then s else Run(Step(s, actions[0]), actions[1..])
  }

  function Fresh<T>(): State<T> { State(None, 0, Working, []) }

  ghost predicate Inv<T(!new)>(s: State<T>) {
    && (s.cell.Some? <==> !s.owner.Working?)
    && s.notifications == (if s.owner.Notified? then 1 else 0)
    && (forall i :: 0 <= i < |s.waiters| ==> WaiterOk(s, s.waiters[i]))
  }

  /** A waiter that registered after the notification reads a full cell, so it never sleeps. */
  ghost predicate WaiterOk<T(!new)>(s: State<T>, waiter: Waiter<T>) {
    match waiter
    case Starting => true
    case Registered(ticket) => ticket <= s.notifications
    case Asleep(ticket) => ticket == 0
    case Returned(result) => s.cell == Some(result)
  }

  lemma {:induction false} RunKeepsInv<T(!new)>(s: State<T>, actions: seq<Action<T>>)
    requires Inv(s)
    ensures Inv(Run(s, actions))
    ensures s.cell.Some? ==> Run(s, actions).cell == s.cell
    decreases |actions|
  {
    if actions != [] {
      RunKeepsInv(Step(s, actions[0]), actions[1..]);
    }
  }

  /** No wake-up is lost: once the owner has notified, every sleeper can move; before that,
      the cell is empty or the notification is still to come. */
  lemma NoLostWakeUp<T(!new)>(actions: seq<Action<T>>, i: nat)
    ensures var s := Run(Fresh<T>(), actions);
            i < |s.waiters| && s.waiters[i].Asleep? && s.cell.Some? ==>
              if s.owner.Stored? then Step(s, Notify) != s
              else Advanced(s, s.waiters[i]) == Starting
  {
    RunKeepsInv(Fresh<T>(), actions);
  }

  /** When the result is stored and nothing can move any more, everybody has it. */
  lemma QuietMeansDelivered<T(!new)>(actions: seq<Action<T>>)
    requires var s := Run(Fresh<T>(), actions);
             && s.cell.Some? && Step(s, Notify) == s
             && forall i :: 0 <= i < |s.waiters| ==> Advanced(s, s.waiters[i]) == s.waiters[i]
    ensures var s := Run(Fresh<T>(), actions);
            forall i :: 0 <= i < |s.waiters| ==> s.waiters[i] == Returned(s.cell.value)
  {
    RunKeepsInv(Fresh<T>(), actions);
    var s := Run(Fresh<T>(), actions);
    forall i | 0 <= i < |s.waiters| ensures s.waiters[i] == Returned(s.cell.value) {
      assert WaiterOk(s, s.waiters[i]);
    }
  }

  function Distance<T>(waiter: Waiter<T>): nat {
    match waiter
    case Asleep(_) => 3
    case Starting => 2
    case Registered(_) => 1
    case Returned(_) => 0
  }

  /** After the notification every move of a waiter brings it nearer to its result, and
      nobody else can take that back. */
  lemma WaitersMakeProgress<T(!new)>(actions: seq<Action<T>>, next: Action<T>, i: nat)
    requires var s := Run(Fresh<T>(), actions); s.owner.Notified? && i < |s.waiters|
    ensures var s := Run(Fresh<T>(), actions);
            var t := Step(s, next);
            if next == Advance(i) && !s.waiters[i].Returned?
            then Distance(t.waiters[i]) == Distance(s.waiters[i]) - 1
            else t.waiters[i] == s.waiters[i]
  {
    RunKeepsInv(Fresh<T>(), actions);
    var s := Run(Fresh<T>(), actions);
    assert WaiterOk(s, s.waiters[i]);
  }

  // ------------------------------------------------- everybody can be served

  lemma {:induction false} RunAppend<T>(s: State<T>, first: seq<Action<T>>, second: seq<Action<T>>)
    ensures Run(s, first + second) == Run(Run(s, first), second)
    decreases |first|
  {
    if first == [] {
      assert first + second == second;
    } else {
      assert (first + second)[1..] == first[1..] + second;
      RunAppend(Step(s, first[0]), first[1..], second);
    }
  }

  /** Nothing but the waiter at `i` has changed. */
  ghost predicate OnlyMoves<T>(s: State<T>, t: State<T>, i: nat) {
    && t == s.(waiters := t.waiters) && |t.waiters| == |s.waiters|
    && forall k :: 0 <= k < |s.waiters| && k != i ==> t.waiters[k] == s.waiters[k]
  }

  lemma {:induction false} ServeOne<T(!new)>(s: State<T>, i: nat) returns (moves: seq<Action<T>>)
    requires Inv(s) && s.owner.Notified? && i < |s.waiters|
    ensures var t := Run(s, moves); Inv(t) && OnlyMoves(s, t, i) && t.waiters[i] == Returned(s.cell.value)
    decreases Distance(s.waiters[i])
  {
    assert WaiterOk(s, s.waiters[i]);
    if s.waiters[i].Returned? {
      moves := [];
    } else {
      var t := Step(s, Advance(i));
      RunKeepsInv(s, [Advance(i)]);
      assert Run(s, [Advance(i)]) == t;
      var later := ServeOne(t, i);
      RunAppend(s, [Advance(i)], later);
      moves := [Advance(i)] + later;
    }
  }

  lemma {:induction false} ServeAll<T(!new)>(s: State<T>, n: nat) returns (moves: seq<Action<T>>)
    requires Inv(s) && s.owner.Notified? && n <= |s.waiters|
    ensures var t := Run(s, moves);
      && Inv(t) && t == s.(waiters := t.waiters) && |t.waiters| == |s.waiters|
      && forall i :: 0 <= i < n ==> t.waiters[i] == Returned(s.cell.value)
  {
    moves := [];
    if n > 0 {
      var first := ServeAll(s, n - 1);
      var last := ServeOne(Run(s, first), n - 1);
      RunAppend(s, first, last);
      moves := first + last;
    }
  }

  /** Whatever has happened, everybody who waits, and one more who arrives now, can still get the result: the
      one that is stored, or else the one that the owner stores next. */
  lemma EverybodyCanBeServed<T(!new)>(actions: seq<Action<T>>, result: T) returns (more: seq<Action<T>>)
    ensures var s := Run(Fresh<T>(), actions);
            var t := Run(s, [Arrive] + more);
      && t.cell == (if s.cell.Some? then s.cell else Some(result)) && |t.waiters| == |s.waiters| + 1
      && forall i :: 0 <= i < |t.waiters| ==> t.waiters[i] == Returned(t.cell.value)
  {
    RunKeepsInv(Fresh<T>(), actions);
    var s := Run(Fresh<T>(), actions);
    var arrived := Step(s, Arrive);
    var stored := Step(arrived, Store(result));
    var notified := Step(stored, Notify);
    RunKeepsInv(s, [Arrive]);
    RunKeepsInv(arrived, [Store(result)]);
    RunKeepsInv(stored, [Notify]);
    assert Run(s, [Arrive]) == arrived && Run(arrived, [Store(result)]) == stored && Run(stored, [Notify]) == notified;
    var moves := ServeAll(notified, |notified.waiters|);
    RunAppend(stored, [Notify], moves);
    RunAppend(arrived, [Store(result)], [Notify] + moves);
    more := [Store(result)] + ([Notify] + moves);
    RunAppend(s, [Arrive], more);
  }

  /** Nobody wakes without being called: before the notification a sleeper stays asleep. */
  lemma NobodyWakesEarly<T(!new)>(actions: seq<Action<T>>, i: nat)
    ensures var s := Run(Fresh<T>(), actions);
            i < |s.waiters| && s.waiters[i].Asleep? && !s.owner.Notified? ==> Step(s, Advance(i)) == s
  {
    RunKeepsInv(Fresh<T>(), actions);
    var s := Run(Fresh<T>(), actions);
    if i < |s.waiters| {
      assert WaiterOk(s, s.waiters[i]);
    }
  }
}
