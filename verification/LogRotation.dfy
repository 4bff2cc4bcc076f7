/** The daemon's rotating log (crates/usage-daemon/src/managed_log.rs), with every file operation
    free to fail. A file is the sequence of non-empty writes that reached it. */
module LogRotation {
  import opened Numbers
  import opened Sequences
  import opened Wrappers

  type Piece = b: seq<Byte> | b != [] witness [0]
  type File = seq<Piece>

  const MAX_BYTES := 5 * 1024 * 1024
  const RETAINED_ARCHIVES := 3

  /** `slots[0]` is the current log, `slots[i]` archive `i`. `handle` is the slot that holds the open
      file; an open file that was deleted is the `orphan`. */
  datatype Log = Log(slots: seq<Option<File>>, handle: Option<nat>, orphan: File, bytes: nat)

  function Text(f: File): Bytes {
    if f == [] then [] else Text(f[..|f| - 1]) + f[|f| - 1]
  }

  function Grown(f: File, piece: Piece): File {
    f + [piece]
  }

  function Held(slot: Option<File>): Bytes {
    if slot.Some? then Text(slot.value) else []
  }

  /** Archive 3, 2, 1 and the current log, in that order. */
  function Retained(slots: seq<Option<File>>): Bytes
    requires |slots| == RETAINED_ARCHIVES + 1
  {
    Joined(Held(slots[3]), Held(slots[2]), Held(slots[1]), Held(slots[0]))
  }

  function Joined(a: Bytes, b: Bytes, c: Bytes, d: Bytes): Bytes {
    a + b + c + d
  }

  predicate WellFormed(log: Log) {
    && |log.slots| == RETAINED_ARCHIVES + 1
    && (log.handle.Some? ==> log.handle.value <= RETAINED_ARCHIVES && log.slots[log.handle.value].Some?)
  }

  function OpenFile(log: Log): File
    requires WellFormed(log)
  {
    if log.handle.Some? then log.slots[log.handle.value].value else log.orphan
  }

  // ----- File operations -----

  /** `rename` moves the file, and the open handle with it; a file that was there is gone. */
  function Rename(log: Log, from: nat, to: nat): Log
    requires WellFormed(log) && from != to && from <= RETAINED_ARCHIVES && to <= RETAINED_ARCHIVES && log.slots[from].Some?
  {
    var slots := log.slots[to := log.slots[from]][from := None];
    if log.handle == Some(from) then log.(slots := slots, handle := Some(to))
    else if log.handle == Some(to) then log.(slots := slots, handle := None, orphan := log.slots[to].value)
    else log.(slots := slots)
  }

  function Remove(log: Log, slot: nat): Log
    requires WellFormed(log) && slot <= RETAINED_ARCHIVES
  {
    var slots := log.slots[slot := None];
    if log.handle == Some(slot) then log.(slots := slots, handle := None, orphan := log.slots[slot].value)
    else log.(slots := slots)
  }

  /** `open_append`. */
  function OpenCurrent(log: Log): Log
    requires WellFormed(log)
  {
    log.(slots := if log.slots[0].Some? then log.slots else log.slots[0 := Some([])], handle := Some(0))
  }

  function Shift(log: Log, slot: nat): (r: Log)
    requires WellFormed(log) && slot < RETAINED_ARCHIVES
    ensures WellFormed(r)
  {
    if log.slots[slot].Some? then Rename(log, slot, slot + 1) else log
  }

  /** The steps of a rotation, any of which may fail. */
  datatype Fault = Flush | RemoveOldest | RenameArchive(index: nat) | RenameCurrent | Reopen | SetPermissions | Nothing

  datatype Rotated = Rotated(log: Log, ok: bool)

  predicate FailsAt(fault: Fault, log: Log, slot: nat)
    requires WellFormed(log) && slot < RETAINED_ARCHIVES
  {
    log.slots[slot].Some? && fault == if slot == 0 then RenameCurrent else RenameArchive(slot)
  }

  /** The renames from archive `slot` down to the current log. */
  function ShiftAll(log: Log, slot: nat, fault: Fault): (r: Rotated)
    requires WellFormed(log) && slot < RETAINED_ARCHIVES
    ensures WellFormed(r.log)
    decreases slot
  {
    if FailsAt(fault, log, slot) then Rotated(log, false)
    else if slot == 0 then Rotated(Shift(log, 0), true)
    else ShiftAll(Shift(log, slot), slot - 1, fault)
  }

  function Rotate(log: Log, fault: Fault): (r: Rotated)
    requires WellFormed(log)
    ensures WellFormed(r.log)
  {
    if fault.Flush? || fault.RemoveOldest? then Rotated(log, false)
    else
      var shifted := ShiftAll(Remove(log, RETAINED_ARCHIVES), RETAINED_ARCHIVES - 1, fault);
      if !shifted.ok || fault.Reopen? then Rotated(shifted.log, false)
      else
        var reopened := OpenCurrent(shifted.log);
        if fault.SetPermissions? then Rotated(reopened, false) else Rotated(reopened.(bytes := 0), true)
  }

  function Append(log: Log, piece: Bytes): Log
    requires WellFormed(log)
  {
    if piece == [] then log
    else if log.handle.Some? then
      var k := log.handle.value;
      log.(slots := log.slots[k := Some(Grown(log.slots[k].value, piece))])
    else log.(orphan := Grown(log.orphan, piece))
  }

  /** One `write`: what the file system lets happen. */
  datatype Attempt = Attempt(buffer: Bytes, fault: Fault, accepted: Option<nat>)

  datatype Wrote = Wrote(log: Log, written: Option<nat>)

  predicate Rotates(log: Log, buffer: Bytes) {
    log.bytes > 0 && SaturatingAdd(log.bytes, |buffer|) > MAX_BYTES
  }

  predicate Possible(a: Attempt) {
    |a.buffer| <= U64_MAX && (a.accepted.Some? ==> a.accepted.value <= |a.buffer|)
  }

  function Write(log: Log, a: Attempt): (w: Wrote)
    requires WellFormed(log) && Possible(a)
    ensures WellFormed(w.log) && (w.written.Some? ==> w.written.value <= |a.buffer|)
  {
    var rotated := if Rotates(log, a.buffer) then Rotate(log, a.fault) else Rotated(log, true);
    if !rotated.ok || a.accepted.None? then Wrote(rotated.log, None)
    else
      var n := a.accepted.value;
      var appended := Append(rotated.log, a.buffer[..n]);
      Wrote(appended.(bytes := SaturatingAdd(appended.bytes, n)), Some(n))
  }

  // ----- The log in place -----

  class LogState {
    var slots: seq<Option<File>>
    var handle: Option<nat>
    var orphan: File
    var bytes: nat

    function View(): Log
      reads this
    {
      Log(slots, handle, orphan, bytes)
    }

    /** The state `open` builds before it looks at the size. */
    constructor (found: seq<Option<File>>)
      requires |found| == RETAINED_ARCHIVES + 1
      ensures View() == Opened(found)
    {
      slots := if found[0].Some? then found else found[0 := Some([])];
      handle, orphan := Some(0), [];
      bytes := if found[0].Some? then |Text(found[0].value)| else 0;
    }

    method RenameFile(from: nat, to: nat)
      requires WellFormed(View()) && from != to && from <= RETAINED_ARCHIVES && to <= RETAINED_ARCHIVES && slots[from].Some?
      modifies this
      ensures View() == Rename(old(View()), from, to)
    {
      if handle == Some(from) {
        handle := Some(to);
      } else if handle == Some(to) {
        handle, orphan := None, slots[to].value;
      }
      slots := slots[to := slots[from]][from := None];
    }

    method RotateFiles(fault: Fault) returns (ok: bool)
      requires WellFormed(View())
      modifies this
      ensures Rotated(View(), ok) == Rotate(old(View()), fault)
    {
      if fault.Flush? || fault.RemoveOldest? {
        return false;
      }
      if handle == Some(RETAINED_ARCHIVES) {
        handle, orphan := None, slots[RETAINED_ARCHIVES].value;
      }
      slots := slots[RETAINED_ARCHIVES := None];
      ghost var shifted := ShiftAll(View(), RETAINED_ARCHIVES - 1, fault);
      var index := RETAINED_ARCHIVES - 1;
      while index >= 0
        invariant -1 <= index < RETAINED_ARCHIVES && WellFormed(View())
        invariant shifted == if index < 0 then Rotated(View(), true) else ShiftAll(View(), index, fault)
      {
        if slots[index].Some? {
          if fault == if index == 0 then RenameCurrent else RenameArchive(index) {
            return false;
          }
          RenameFile(index, index + 1);
        }
        index := index - 1;
      }
      if fault.Reopen? {
        return false;
      }
      if slots[0].None? {
        slots := slots[0 := Some([])];
      }
      handle := Some(0);
      if fault.SetPermissions? {
        return false;
      }
      bytes := 0;
      ok := true;
    }

    method WriteBuffer(a: Attempt) returns (written: Option<nat>)
      requires WellFormed(View()) && Possible(a)
      modifies this
      ensures Wrote(View(), written) == Write(old(View()), a)
    {
      if bytes > 0 && SaturatingAdd(bytes, |a.buffer|) > MAX_BYTES {
        var ok := RotateFiles(a.fault);
        if !ok {
          return None;
        }
      }
      if a.accepted.None? {
        return None;
      }
      var n := a.accepted.value;
      if n > 0 {
        if handle.Some? {
          slots := slots[handle.value := Some(Grown(slots[handle.value].value, a.buffer[..n]))];
        } else {
          orphan := Grown(orphan, a.buffer[..n]);
        }
      }
      bytes := SaturatingAdd(bytes, n);
      written := Some(n);
    }
  }

  function Opened(found: seq<Option<File>>): Log
    requires |found| == RETAINED_ARCHIVES + 1
  {
    Log(if found[0].Some? then found else found[0 := Some([])], Some(0), [],
        if found[0].Some? then |Text(found[0].value)| else 0)
  }

  /** Opening the file and setting its permissions may fail before anything is rotated. */
  datatype OpenFault = CannotOpen | CannotSetPermissions | Opens

  /** `open` rotates at once when the log it finds is full; any failure leaves no writer. */
  method Open(found: seq<Option<File>>, openFault: OpenFault, fault: Fault) returns (state: Option<LogState>)
    requires |found| == RETAINED_ARCHIVES + 1
    ensures var start := Opened(found);
            var rotated := if start.bytes >= MAX_BYTES then Rotate(start, fault) else Rotated(start, true);
      && (state.Some? <==> openFault.Opens? && rotated.ok)
      && (state.Some? ==> fresh(state.value) && state.value.View() == rotated.log)
  {
    if openFault.CannotOpen? {
      return None;
    }
    var log := new LogState(found);
    if openFault.CannotSetPermissions? {
      return None;
    }
    if log.bytes >= MAX_BYTES {
      var ok := log.RotateFiles(fault);
      if !ok {
        return None;
      }
    }
    state := Some(log);
  }

  // ----- Where every file goes -----

  /** A write rotates first exactly when something is in the log and the write would take it beyond 5 MiB. */
  lemma RotatesExactly(log: Log, buffer: Bytes)
    ensures Rotates(log, buffer) <==> log.bytes > 0 && log.bytes + |buffer| > 5_242_880
  {
  }

  /** How many of the newest slots a failing rename leaves in place. */
  function Kept(slots: seq<Option<File>>, fault: Fault): nat
    requires |slots| == 4
  {
    match fault
    case RenameArchive(k) => if (k == 1 || k == 2) && slots[k].Some? then k + 1 else 0
    case RenameCurrent => if slots[0].Some? then 1 else 0
    case _ => 0
  }

  /** The slots once everything behind the first `kept` has moved one further; the oldest is gone. */
  function MovedOn(slots: seq<Option<File>>, kept: nat): (moved: seq<Option<File>>)
    requires |slots| == 4
    ensures |moved| == 4
  {
    seq(4, i requires 0 <= i < 4 => if i < kept then slots[i] else if i == kept then None else slots[i - 1])
  }

  /** The open file moves with its slot, and stays open, without a name, when the oldest slot is emptied. */
  predicate FollowsItsFile(before: Log, after: Log, kept: nat)
    requires WellFormed(before)
  {
    match before.handle
    case None => after.handle == None && after.orphan == before.orphan
    case Some(h) =>
      if h < kept then after.handle == Some(h)
      else if h < 3 then after.handle == Some(h + 1)
      else after.handle == None && after.orphan == before.slots[3].value
  }

  lemma ShiftIs(log: Log, slot: nat)
    requires WellFormed(log) && slot < 3 && log.slots[slot + 1].None?
    ensures var next := Shift(log, slot);
      && next.bytes == log.bytes && next.orphan == log.orphan
      && next.slots == log.slots[slot + 1 := log.slots[slot]][slot := None]
      && next.handle == if log.handle == Some(slot) then Some(slot + 1) else log.handle
  {
    assert log.slots[slot].None? ==> log.slots == log.slots[slot + 1 := log.slots[slot]][slot := None];
  }

  lemma ShiftAllInSteps(log: Log, fault: Fault)
    requires WellFormed(log)
    ensures var one := Shift(log, 2); var two := Shift(one, 1);
            ShiftAll(log, 2, fault)
            == if FailsAt(fault, log, 2) then Rotated(log, false)
               else if FailsAt(fault, one, 1) then Rotated(one, false)
               else if FailsAt(fault, two, 0) then Rotated(two, false)
               else Rotated(Shift(two, 0), true)
  {
    hide Shift;
    hide FailsAt;
  }

  lemma RemoveIs(log: Log)
    requires WellFormed(log)
    ensures var next := Remove(log, 3);
      && next.bytes == log.bytes && next.slots == log.slots[3 := None]
      && (if log.handle == Some(3) then next.handle == None && next.orphan == log.slots[3].value
          else next.handle == log.handle && next.orphan == log.orphan)
  {
  }

  lemma SlotsAre(a: seq<Option<File>>, b: seq<Option<File>>)
    requires |a| == |b| == 4 && a[0] == b[0] && a[1] == b[1] && a[2] == b[2] && a[3] == b[3]
    ensures a == b
  {
  }

  lemma ShiftedIs(log: Log, fault: Fault)
    requires WellFormed(log)
    ensures var r, kept := ShiftAll(Remove(log, 3), 2, fault), Kept(log.slots, fault);
      && r.log.bytes == log.bytes && (r.ok <==> kept == 0)
      && r.log.slots == MovedOn(log.slots, kept) && FollowsItsFile(log, r.log, kept)
  {
    var removed := Remove(log, 3);
    var one := Shift(removed, 2);
    var two := Shift(one, 1);
    RemoveIs(log);
    ShiftAllInSteps(removed, fault);
    ShiftIs(removed, 2);
    ShiftIs(one, 1);
    ShiftIs(two, 0);
    hide Remove;
    hide Shift;
    hide ShiftAll;
    SlotsAre(ShiftAll(removed, 2, fault).log.slots, MovedOn(log.slots, Kept(log.slots, fault)));
  }

  /** Where a rotation leaves every file, whatever fails: each archive and the log move one slot on and the
      oldest is gone, up to the rename that fails; then an empty log is opened, and only then is the counter
      set back. Before any of it a failing flush or removal leaves everything as it was. */
  lemma RotationExactly(log: Log, fault: Fault)
    requires WellFormed(log)
    ensures var r, kept := Rotate(log, fault), Kept(log.slots, fault);
      if fault.Flush? || fault.RemoveOldest? then r == Rotated(log, false)
      else if kept > 0 || fault.Reopen? then
        && !r.ok && r.log.slots == MovedOn(log.slots, kept) && r.log.bytes == log.bytes && FollowsItsFile(log, r.log, kept)
      else
        && r.log.slots == MovedOn(log.slots, 0)[0 := Some([])] && r.log.handle == Some(0)
        && (r.ok <==> !fault.SetPermissions?) && r.log.bytes == (if r.ok then 0 else log.bytes)
  {
    ShiftedIs(log, fault);
    hide Remove;
    hide ShiftAll;
    hide FollowsItsFile;
  }

  // ----- A suffix of everything written -----

  predicate EndsWith(all: Bytes, tail: Bytes) {
    |tail| <= |all| && all[|all| - |tail|..] == tail
  }

  lemma EndsWithAppend(all: Bytes, tail: Bytes, more: Bytes)
    requires EndsWith(all, tail)
    ensures EndsWith(all + more, tail + more)
  {
    assert all == all[..|all| - |tail|] + tail;
    assert all + more == all[..|all| - |tail|] + (tail + more);
  }

  lemma EndsWithDrop(all: Bytes, front: Bytes, tail: Bytes)
    requires EndsWith(all, front + tail)
    ensures EndsWith(all, tail)
  {
    var k := |all| - |front + tail|;
    assert all[k..][|front|..] == tail;
  }

  /** The open file is the newest one there is: nothing lies in a newer slot, and once it has been
      deleted there is no file left at all. */
  predicate Newest(log: Log)
    requires WellFormed(log)
  {
    forall i :: 0 <= i <= RETAINED_ARCHIVES && (log.handle.Some? ==> i < log.handle.value) ==> log.slots[i].None?
  }

  lemma ShiftKeeps(log: Log, slot: nat)
    requires WellFormed(log) && slot < RETAINED_ARCHIVES && Newest(log) && log.slots[slot + 1].None?
    ensures var next := Shift(log, slot);
      && Newest(next) && OpenFile(next) == OpenFile(log) && next.bytes == log.bytes
      && Retained(next.slots) == Retained(log.slots) && next.slots[slot].None?
  {
    if log.slots[slot].Some? {
      MovedText(log.slots, slot);
    }
  }

  lemma MovedText(slots: seq<Option<File>>, slot: nat)
    requires |slots| == RETAINED_ARCHIVES + 1 && slot < RETAINED_ARCHIVES && slots[slot + 1].None?
    ensures Retained(slots[slot + 1 := slots[slot]][slot := None]) == Retained(slots)
  {
    var moved := slots[slot + 1 := slots[slot]][slot := None];
    NothingHeld();
    JoinedMove(Held(slots[3]), Held(slots[2]), Held(slots[1]), Held(slots[0]));
    JoinedMove(Held(moved[3]), Held(moved[2]), Held(moved[1]), Held(moved[0]));
    hide Held;
    hide Joined;
  }

  lemma NothingHeld()
    ensures Held(None) == []
  {
  }

  lemma {:induction false} ShiftAllKeeps(log: Log, slot: nat, fault: Fault)
    requires WellFormed(log) && slot < RETAINED_ARCHIVES && Newest(log) && log.slots[slot + 1].None?
    ensures var r := ShiftAll(log, slot, fault);
      && Newest(r.log) && OpenFile(r.log) == OpenFile(log) && r.log.bytes == log.bytes
      && Retained(r.log.slots) == Retained(log.slots) && (r.ok ==> r.log.slots[0].None?)
    decreases slot
  {
    hide Shift;
    hide Retained;
    hide OpenFile;
    hide Newest;
    if !FailsAt(fault, log, slot) {
      ShiftKeeps(log, slot);
      if slot > 0 {
        ShiftAllKeeps(Shift(log, slot), slot - 1, fault);
      }
    }
  }

  lemma RemoveOldestKeeps(log: Log)
    requires WellFormed(log) && Newest(log)
    ensures var next := Remove(log, RETAINED_ARCHIVES);
      && Newest(next) && OpenFile(next) == OpenFile(log) && next.bytes == log.bytes
      && Retained(log.slots) == Held(log.slots[RETAINED_ARCHIVES]) + Retained(next.slots)
      && next.slots[RETAINED_ARCHIVES].None?
  {
    hide Held;
    NothingHeld();
    JoinedMove(Held(log.slots[3]), Held(log.slots[2]), Held(log.slots[1]), Held(log.slots[0]));
    hide Joined;
  }

  lemma ReopenKeeps(log: Log)
    requires WellFormed(log) && log.slots[0].None?
    ensures var next := OpenCurrent(log);
      Newest(next) && OpenFile(next) == [] && next.bytes == log.bytes && Retained(next.slots) == Retained(log.slots)
  {
  }

  /** What a rotation does: it drops archive 3 and nothing else, whether or not it gets to the end; and
      when it does, an empty file is open. */
  lemma RotationDropsTheOldest(log: Log, fault: Fault)
    requires WellFormed(log) && Newest(log)
    ensures var r := Rotate(log, fault);
      && Newest(r.log)
      && Retained(log.slots)
         == (if fault.Flush? || fault.RemoveOldest? then [] else Held(log.slots[RETAINED_ARCHIVES])) + Retained(r.log.slots)
      && (r.ok ==> OpenFile(r.log) == [] && r.log.bytes == 0 && r.log.handle == Some(0))
      && (!r.ok ==> r.log.bytes == log.bytes && (OpenFile(r.log) == OpenFile(log) || (OpenFile(r.log) == [] && fault.SetPermissions?)))
  {
    hide Retained;
    hide OpenFile;
    hide Newest;
    hide Held;
    if fault.Flush? || fault.RemoveOldest? {
      assert [] + Retained(log.slots) == Retained(log.slots);
    } else {
      RemoveOldestKeeps(log);
      var removed := Remove(log, RETAINED_ARCHIVES);
      ShiftAllKeeps(removed, RETAINED_ARCHIVES - 1, fault);
      var shifted := ShiftAll(removed, RETAINED_ARCHIVES - 1, fault);
      hide Remove;
      hide ShiftAll;
      if shifted.ok && !fault.Reopen? {
        ReopenKeeps(shifted.log);
        SameBut(OpenCurrent(shifted.log), 0);
      }
    }
  }

  lemma SameBut(log: Log, bytes: nat)
    requires WellFormed(log)
    ensures var next := log.(bytes := bytes); Newest(next) == Newest(log) && OpenFile(next) == OpenFile(log)
  {
  }

  lemma TextAppend(f: File, piece: Piece)
    ensures Text(Grown(f, piece)) == Text(f) + piece
  {
    assert (f + [piece])[..|f|] == f;
  }

  /** What one write attempt adds to the history of the log. */
  function Added(log: Log, a: Attempt): Bytes
    requires WellFormed(log) && Possible(a)
  {
    var w := Write(log, a);
    if w.written.Some? then a.buffer[..w.written.value] else []
  }

  lemma AppendKeeps(log: Log, piece: Bytes)
    requires WellFormed(log) && Newest(log)
    ensures var next := Append(log, piece);
      && WellFormed(next) && Newest(next) && Text(OpenFile(next)) == Text(OpenFile(log)) + piece
      && Retained(next.slots) == if log.handle.Some? then Retained(log.slots) + piece else []
  {
    if piece == [] {
      assert Text(OpenFile(log)) + piece == Text(OpenFile(log));
      assert Retained(log.slots) + piece == Retained(log.slots);
    } else {
      TextAppend(OpenFile(log), piece);
      if log.handle.Some? {
        AppendedText(log.slots, log.handle.value, piece);
      }
    }
  }

  lemma AppendedText(slots: seq<Option<File>>, k: nat, piece: Piece)
    requires |slots| == RETAINED_ARCHIVES + 1 && k <= RETAINED_ARCHIVES && slots[k].Some?
    requires forall i :: 0 <= i < k ==> slots[i].None?
    ensures Retained(slots[k := Some(Grown(slots[k].value, piece))]) == Retained(slots) + piece
  {
    TextAppend(slots[k].value, piece);
    hide Text;
    hide Joined;
    JoinedAppend(Held(slots[3]), Held(slots[2]), Held(slots[1]), Held(slots[0]), piece);
  }

  /** Appending to the last part that is not empty is appending to the whole. */
  lemma JoinedAppend(a: Bytes, b: Bytes, c: Bytes, d: Bytes, more: Bytes)
    ensures Joined(a, b, c, d + more) == Joined(a, b, c, d) + more
    ensures d == [] ==> Joined(a, b, c + more, d) == Joined(a, b, c, d) + more
    ensures c == [] && d == [] ==> Joined(a, b + more, c, d) == Joined(a, b, c, d) + more
    ensures b == [] && c == [] && d == [] ==> Joined(a + more, b, c, d) == Joined(a, b, c, d) + more
  {
  }

  lemma JoinedMove(a: Bytes, b: Bytes, c: Bytes, d: Bytes)
    ensures Joined(a, b, c, []) == Joined(a, b, [], c)
    ensures Joined(a, b, [], d) == Joined(a, [], b, d)
    ensures Joined(a, [], c, d) == Joined([], a, c, d)
    ensures Joined(a, b, c, d) == a + Joined([], b, c, d)
  {
  }

  /** One write keeps what is retained a suffix of everything written. */
  lemma WriteKeepsSuffix(log: Log, a: Attempt, history: Bytes)
    requires WellFormed(log) && Newest(log) && Possible(a) && EndsWith(history, Retained(log.slots))
    ensures var w := Write(log, a);
      Newest(w.log) && EndsWith(history + Added(log, a), Retained(w.log.slots))
  {
    hide Retained;
    hide EndsWith;
    hide Newest;
    var rotated := if Rotates(log, a.buffer) then Rotate(log, a.fault) else Rotated(log, true);
    if Rotates(log, a.buffer) {
      RotationDropsTheOldest(log, a.fault);
      EndsWithDrop(history, if a.fault.Flush? || a.fault.RemoveOldest? then [] else Held(log.slots[RETAINED_ARCHIVES]),
                   Retained(rotated.log.slots));
    }
    hide Rotate;
    if !rotated.ok || a.accepted.None? {
      assert history + [] == history;
    } else {
      var piece := a.buffer[..a.accepted.value];
      AppendKeeps(rotated.log, piece);
      var next := Append(rotated.log, piece);
      SameBut(next, SaturatingAdd(next.bytes, a.accepted.value));
      hide Append;
      if rotated.log.handle.Some? {
        EndsWithAppend(history, Retained(rotated.log.slots), piece);
      } else {
        NothingIsASuffix(history + piece);
      }
    }
  }

  lemma NothingIsASuffix(all: Bytes)
    ensures EndsWith(all, [])
  {
  }

  function After(log: Log, attempts: seq<Attempt>): (r: Log)
    requires WellFormed(log) && forall a :: a in attempts ==> Possible(a)
    ensures WellFormed(r)
  {
    if attempts == [] then log
    else
      var (before, last) := (After(log, attempts[..|attempts| - 1]), attempts[|attempts| - 1]);
      Write(before, last).log
  }

  /** Everything that was written, starting from what the files held. */
  function History(log: Log, attempts: seq<Attempt>): Bytes
    requires WellFormed(log) && forall a :: a in attempts ==> Possible(a)
  {
    if attempts == [] then Retained(log.slots)
    else
      var (rest, last) := (attempts[..|attempts| - 1], attempts[|attempts| - 1]);
      History(log, rest) + Added(After(log, rest), last)
  }

  lemma {:induction false} RunKeepsSuffix(log: Log, attempts: seq<Attempt>)
    requires WellFormed(log) && Newest(log) && forall a :: a in attempts ==> Possible(a)
    ensures Newest(After(log, attempts)) && EndsWith(History(log, attempts), Retained(After(log, attempts).slots))
  {
    hide Retained;
    hide EndsWith;
    hide Newest;
    hide Write;
    hide Added;
    if attempts == [] {
      EndsWithItself(Retained(log.slots));
    } else {
      var (rest, last) := (attempts[..|attempts| - 1], attempts[|attempts| - 1]);
      RunKeepsSuffix(log, rest);
      WriteKeepsSuffix(After(log, rest), last, History(log, rest));
    }
  }

  lemma EndsWithItself(all: Bytes)
    ensures EndsWith(all, all)
  {
  }

  /** After any writes and rotations, whatever fails, archive 3, 2, 1 and the current log concatenated
      are the end of everything that was found and written. */
  lemma LogIsASuffix(found: seq<Option<File>>, fault: Fault, attempts: seq<Attempt>)
    requires |found| == RETAINED_ARCHIVES + 1 && forall a :: a in attempts ==> Possible(a)
    ensures var start := Opened(found);
            var log := if start.bytes >= MAX_BYTES then Rotate(start, fault).log else start;
            EndsWith(History(log, attempts), Retained(After(log, attempts).slots))
  {
    var start := Opened(found);
    if start.bytes >= MAX_BYTES {
      RotationDropsTheOldest(start, fault);
      RunKeepsSuffix(Rotate(start, fault).log, attempts);
    } else {
      RunKeepsSuffix(start, attempts);
    }
  }

  // ----- What an attempt loses and keeps -----

  /** Exactly when an attempt that writes nothing loses nothing: it does not rotate, or fails before the
      oldest archive is removed, or that archive holds nothing. */
  lemma FailedWriteLosesExactly(log: Log, a: Attempt)
    requires WellFormed(log) && Newest(log) && Possible(a) && Write(log, a).written.None?
    ensures Retained(Write(log, a).log.slots) == Retained(log.slots) <==>
            !Rotates(log, a.buffer) || a.fault.Flush? || a.fault.RemoveOldest? || Held(log.slots[RETAINED_ARCHIVES]) == []
  {
    if Rotates(log, a.buffer) {
      RotationDropsTheOldest(log, a.fault);
      hide Retained;
      hide Held;
      hide Rotate;
      var rotated := Rotate(log, a.fault).log;
      assert Write(log, a).log == rotated;
      var dropped := if a.fault.Flush? || a.fault.RemoveOldest? then [] else Held(log.slots[RETAINED_ARCHIVES]);
      assert |Retained(log.slots)| == |dropped| + |Retained(rotated.slots)|;
      assert [] + Retained(rotated.slots) == Retained(rotated.slots);
    }
  }

  /** Exactly when an accepted write ends the retained text: when the open file has not been deleted. */
  lemma AcceptedWriteIsRetainedExactly(log: Log, a: Attempt)
    requires WellFormed(log) && Newest(log) && Possible(a) && Write(log, a).written.Some?
    ensures var w := Write(log, a); var piece := a.buffer[..w.written.value];
      && (w.log.handle.Some? <==> log.handle.Some? || Rotates(log, a.buffer))
      && (EndsWith(Retained(w.log.slots), piece) <==> w.log.handle.Some? || piece == [])
      && (w.log.handle.None? ==> Retained(w.log.slots) == [])
  {
    AcceptedIs(log, a);
    hide Retained;
    hide Newest;
    hide Write;
    hide EndsWith;
    var rotated := if Rotates(log, a.buffer) then Rotate(log, a.fault) else Rotated(log, true);
    if Rotates(log, a.buffer) {
      RotationDropsTheOldest(log, a.fault);
    }
    hide Rotate;
    hide Rotates;
    var piece := a.buffer[..a.accepted.value];
    AppendKeeps(rotated.log, piece);
    hide Append;
    NothingIsASuffix([]);
    if rotated.log.handle.Some? {
      NothingIsASuffix(Retained(rotated.log.slots));
      EndsWithAppend(Retained(rotated.log.slots), [], piece);
      assert [] + piece == piece;
    } else {
      EndsWithNothing(piece);
      if piece == [] {
        NoFileNothingRetained(rotated.log);
      }
    }
  }

  lemma AcceptedIs(log: Log, a: Attempt)
    requires WellFormed(log) && Possible(a) && Write(log, a).written.Some?
    ensures var rotated := if Rotates(log, a.buffer) then Rotate(log, a.fault) else Rotated(log, true);
      && rotated.ok && a.accepted.Some? && Write(log, a).written == a.accepted
      && Write(log, a).log.slots == Append(rotated.log, a.buffer[..a.accepted.value]).slots
      && Write(log, a).log.handle == rotated.log.handle
  {
    hide Rotate;
    hide Rotates;
  }

  lemma EndsWithNothing(tail: Bytes)
    ensures EndsWith([], tail) <==> tail == []
  {
  }

  lemma NoFileNothingRetained(log: Log)
    requires WellFormed(log) && Newest(log) && log.handle.None?
    ensures Retained(log.slots) == []
  {
  }

  // ----- What a run without faults keeps -----

  predicate FaultFree(a: Attempt) {
    a.fault.Nothing? && a.accepted == Some(|a.buffer|)
  }

  /** The files lie without gaps behind the current log, which is open and counted, and no two neighbours
      would have fitted into one file. */
  predicate Packed(log: Log)
    requires WellFormed(log)
  {
    && log.handle == Some(0) && log.bytes == |Text(log.slots[0].value)| <= U64_MAX
    && (forall i :: 0 <= i < RETAINED_ARCHIVES && log.slots[i + 1].Some? ==>
          log.slots[i].Some? && |Held(log.slots[i + 1])| + |Held(log.slots[i])| > MAX_BYTES)
  }

  lemma CleanRotation(log: Log)
    requires WellFormed(log) && log.handle == Some(0)
    ensures Rotate(log, Nothing)
            == Rotated(Log([Some([]), log.slots[0], log.slots[1], log.slots[2]], Some(0), log.orphan, 0), true)
  {
    var removed := Remove(log, RETAINED_ARCHIVES);
    ShiftMoves(removed, 2);
    var first := Shift(removed, 2);
    ShiftMoves(first, 1);
    var second := Shift(first, 1);
    ShiftMoves(second, 0);
    ShiftKeepsOrphan(removed, 2);
    ShiftKeepsOrphan(first, 1);
    ShiftKeepsOrphan(second, 0);
    hide Shift;
    assert ShiftAll(removed, 2, Nothing) == ShiftAll(first, 1, Nothing);
    assert ShiftAll(first, 1, Nothing) == ShiftAll(second, 0, Nothing) == Rotated(Shift(second, 0), true);
  }

  lemma ShiftKeepsOrphan(log: Log, slot: nat)
    requires WellFormed(log) && slot < RETAINED_ARCHIVES && log.slots[slot + 1].None?
    ensures Shift(log, slot).orphan == log.orphan
  {
  }

  lemma PackedAppend(log: Log, piece: Bytes)
    requires WellFormed(log) && Packed(log) && log.bytes + |piece| <= U64_MAX
    ensures var next := Append(log, piece).(bytes := log.bytes + |piece|);
            WellFormed(next) && Packed(next) && next.slots[1..] == log.slots[1..]
  {
    AppendedSize(log, piece);
  }

  lemma PackedWrite(log: Log, a: Attempt)
    requires WellFormed(log) && Packed(log) && Possible(a) && FaultFree(a)
    ensures var w := Write(log, a).log;
      && Packed(w)
      && (if Rotates(log, a.buffer) then w.slots[1..] == log.slots[..RETAINED_ARCHIVES] else w.slots[1..] == log.slots[1..])
  {
    assert a.buffer[..|a.buffer|] == a.buffer;
    if Rotates(log, a.buffer) {
      CleanRotation(log);
      PackedRotation(log, a.buffer);
    } else {
      NoOverflow(log.bytes, |a.buffer|, |a.buffer|);
      PackedAppend(log, a.buffer);
    }
  }

  lemma RotatesWhenOver(log: Log, buffer: Bytes)
    requires Rotates(log, buffer)
    ensures log.bytes + |buffer| > MAX_BYTES
  {
  }

  /** The write that rotates makes the new current log too large for the file behind it. */
  lemma PackedRotation(log: Log, buffer: Bytes)
    requires WellFormed(log) && Packed(log) && |buffer| <= U64_MAX && Rotates(log, buffer)
    ensures var rotated := Log([Some([]), log.slots[0], log.slots[1], log.slots[2]], Some(0), log.orphan, 0);
            var next := Append(rotated, buffer).(bytes := |buffer|);
            WellFormed(next) && Packed(next) && next.slots[1..] == log.slots[..RETAINED_ARCHIVES]
  {
    RotatesWhenOver(log, buffer);
    hide Rotates;
    var rotated := Log([Some([]), log.slots[0], log.slots[1], log.slots[2]], Some(0), log.orphan, 0);
    AppendedSize(rotated, buffer);
    AppendsToCurrent(rotated, buffer);
    assert |Text([])| == 0;
    hide Append;
    hide Text;
    var slots := Append(rotated, buffer).slots;
    assert slots[1] == log.slots[0] && slots[2] == log.slots[1] && slots[3] == log.slots[2];
  }

  lemma AppendsToCurrent(log: Log, piece: Bytes)
    requires WellFormed(log) && log.handle == Some(0)
    ensures var next := Append(log, piece);
            WellFormed(next) && next.handle == Some(0) && next.slots[1..] == log.slots[1..]
    ensures forall i :: 0 < i <= RETAINED_ARCHIVES ==> Append(log, piece).slots[i] == log.slots[i]
  {
  }

  lemma CleanWriteRetains(log: Log, a: Attempt)
    requires WellFormed(log) && Packed(log) && Possible(a) && FaultFree(a)
    requires Rotates(log, a.buffer) ==> log.slots[RETAINED_ARCHIVES].None?
    ensures Retained(Write(log, a).log.slots) == Retained(log.slots) + a.buffer && Added(log, a) == a.buffer
  {
    var rotated := if Rotates(log, a.buffer) then Rotate(log, Nothing) else Rotated(log, true);
    assert a.buffer[..|a.buffer|] == a.buffer;
    if Rotates(log, a.buffer) {
      RotationDropsTheOldest(log, Nothing);
      CleanRotation(log);
      NothingHeld();
      assert [] + Retained(rotated.log.slots) == Retained(rotated.log.slots);
    }
    hide Rotate;
    hide Retained;
    AppendKeeps(rotated.log, a.buffer);
  }

  predicate AllThere(log: Log)
    requires WellFormed(log)
  {
    forall i :: 0 <= i <= RETAINED_ARCHIVES ==> log.slots[i].Some?
  }

  /** Without faults nothing is dropped before all three archives are there. */
  lemma {:induction false} CleanRunKeeps(log: Log, attempts: seq<Attempt>)
    requires WellFormed(log) && Packed(log) && forall a :: a in attempts ==> Possible(a) && FaultFree(a)
    ensures var r := After(log, attempts);
      Packed(r) && (AllThere(r) || Retained(r.slots) == History(log, attempts))
  {
    if attempts != [] {
      var (rest, last) := (attempts[..|attempts| - 1], attempts[|attempts| - 1]);
      CleanRunKeeps(log, rest);
      var before := After(log, rest);
      PackedWrite(before, last);
      if !Rotates(before, last.buffer) || before.slots[RETAINED_ARCHIVES].None? {
        CleanWriteRetains(before, last);
      }
      var next := Write(before, last).log;
      hide Write;
      hide Retained;
      hide Held;
      assert forall i :: 0 < i <= RETAINED_ARCHIVES ==> next.slots[i] == next.slots[1..][i - 1];
    }
  }

  /** What a run without faults keeps: everything, or the end of it, and then more than two full files. */
  lemma CleanRunsKeepTwoFiles(log: Log, attempts: seq<Attempt>)
    requires WellFormed(log) && Packed(log) && forall a :: a in attempts ==> Possible(a) && FaultFree(a)
    ensures var kept, history := Retained(After(log, attempts).slots), History(log, attempts);
            EndsWith(history, kept) && (kept == history || |kept| > 2 * MAX_BYTES)
  {
    CleanRunKeeps(log, attempts);
    RunKeepsSuffix(log, attempts);
    hide Held;
  }

  /** A log in an empty directory starts that way. */
  lemma FreshLogIsPacked()
    ensures var found := [None, None, None, None]; Packed(Opened(found)) && Retained(Opened(found).slots) == []
  {
  }

  // ----- Failing to reopen -----

  /** A rotation that cannot reopen the log has moved every file one slot on. */
  lemma FailedReopenMovesOn(log: Log)
    requires WellFormed(log)
    ensures var r := Rotate(log, Reopen);
      !r.ok && r.log.bytes == log.bytes && r.log.slots == [None, log.slots[0], log.slots[1], log.slots[2]]
  {
    var removed := Remove(log, RETAINED_ARCHIVES);
    ShiftMoves(removed, 2);
    var first := Shift(removed, 2);
    ShiftMoves(first, 1);
    var second := Shift(first, 1);
    ShiftMoves(second, 0);
    hide Shift;
    assert ShiftAll(removed, 2, Reopen) == ShiftAll(first, 1, Reopen);
    assert ShiftAll(first, 1, Reopen) == ShiftAll(second, 0, Reopen) == Rotated(Shift(second, 0), true);
  }

  lemma ShiftMoves(log: Log, slot: nat)
    requires WellFormed(log) && slot < RETAINED_ARCHIVES && log.slots[slot + 1].None?
    ensures var next := Shift(log, slot);
            next.bytes == log.bytes && next.slots == log.slots[slot + 1 := log.slots[slot]][slot := None]
  {
    if log.slots[slot].None? {
      assert log.slots[slot + 1 := None][slot := None] == log.slots;
    }
  }

  lemma FailedReopenWritesNothing(log: Log, buffer: Bytes)
    requires WellFormed(log) && |buffer| <= U64_MAX && Rotates(log, buffer)
    ensures var w := Write(log, Attempt(buffer, Reopen, None));
      && w.written.None? && Rotates(w.log, buffer)
      && w.log.slots == [None, log.slots[0], log.slots[1], log.slots[2]]
  {
    FailedReopenMovesOn(log);
  }

  lemma FailedReopenAfter(log: Log, attempts: seq<Attempt>, buffer: Bytes)
    requires WellFormed(log) && |buffer| <= U64_MAX && forall b :: b in attempts ==> Possible(b)
    requires Rotates(After(log, attempts), buffer)
    ensures var before, after := After(log, attempts), After(log, attempts + [Attempt(buffer, Reopen, None)]);
            Rotates(after, buffer) && after.slots == [None, before.slots[0], before.slots[1], before.slots[2]]
  {
    hide Rotates;
    hide Write;
    AfterOneMore(log, attempts, Attempt(buffer, Reopen, None));
    FailedReopenWritesNothing(After(log, attempts), buffer);
  }

  /** While the log cannot be reopened, every attempted write drops an archive: four of them leave
      nothing, although nothing was written. */
  lemma FailedReopensEmptyTheLog(log: Log, buffer: Bytes)
    requires WellFormed(log) && |buffer| <= U64_MAX && Rotates(log, buffer)
    ensures var a := Attempt(buffer, Reopen, None);
            After(log, [a, a, a, a]).slots == [None, None, None, None]
  {
    var a := Attempt(buffer, Reopen, None);
    assert After(log, []) == log;
    hide Rotates;
    hide After;
    FailedReopenAfter(log, [], buffer);
    assert [] + [a] == [a];
    FailedReopenAfter(log, [a], buffer);
    assert [a] + [a] == [a, a];
    FailedReopenAfter(log, [a, a], buffer);
    assert [a, a] + [a] == [a, a, a];
    FailedReopenAfter(log, [a, a, a], buffer);
    assert [a, a, a] + [a] == [a, a, a, a];
  }

  lemma AfterOneMore(log: Log, attempts: seq<Attempt>, a: Attempt)
    requires WellFormed(log) && Possible(a) && forall b :: b in attempts ==> Possible(b)
    ensures After(log, attempts + [a]) == Write(After(log, attempts), a).log
  {
    assert (attempts + [a])[..|attempts|] == attempts;
  }

  // ----- Sizes -----

  /** The counter covers the open file; exactly so when `exact`. */
  predicate Counted(log: Log, exact: bool)
    requires WellFormed(log)
  {
    && |Text(OpenFile(log))| <= log.bytes <= U64_MAX
    && (exact ==> log.bytes == |Text(OpenFile(log))|)
  }

  predicate Capped(f: File) {
    |Text(f)| <= MAX_BYTES || |f| <= 1
  }

  predicate AllCapped(log: Log)
    requires WellFormed(log)
  {
    Capped(log.orphan) && forall i :: 0 <= i <= RETAINED_ARCHIVES && log.slots[i].Some? ==> Capped(log.slots[i].value)
  }

  lemma CountedAfterRotation(log: Log, fault: Fault, exact: bool)
    requires WellFormed(log) && Newest(log) && Counted(log, exact)
    ensures Counted(Rotate(log, fault).log, exact && !fault.SetPermissions?)
  {
    RotationDropsTheOldest(log, fault);
    hide Rotate;
    hide OpenFile;
  }

  lemma NoOverflow(bytes: nat, length: nat, n: nat)
    requires n <= length <= U64_MAX && bytes <= U64_MAX && !(bytes > 0 && SaturatingAdd(bytes, length) > MAX_BYTES)
    ensures SaturatingAdd(bytes, n) == bytes + n <= U64_MAX
    ensures bytes == 0 || bytes + length <= MAX_BYTES
  {
  }

  lemma AppendKeepsCount(log: Log, piece: Bytes, exact: bool)
    requires WellFormed(log) && Counted(log, exact) && log.bytes + |piece| <= U64_MAX
    ensures WellFormed(Append(log, piece)) && Append(log, piece).bytes == log.bytes
    ensures Counted(Append(log, piece).(bytes := log.bytes + |piece|), exact)
  {
    AppendedSize(log, piece);
    SameBut(Append(log, piece), log.bytes + |piece|);
    hide Append;
    hide OpenFile;
    hide Newest;
    hide Text;
  }

  /** The byte counter never runs below the size of the open file, and equals it unless the last step of
      some rotation failed; and the saturating addition never saturates. */
  lemma WriteKeepsCount(log: Log, a: Attempt, exact: bool)
    requires WellFormed(log) && Newest(log) && Possible(a) && Counted(log, exact)
    ensures Counted(Write(log, a).log, exact && !a.fault.SetPermissions?)
  {
    hide Newest;
    hide OpenFile;
    hide Text;
    hide Rotate;
    hide Append;
    var rotated := if Rotates(log, a.buffer) then Rotate(log, a.fault) else Rotated(log, true);
    var exactNow := exact && !a.fault.SetPermissions?;
    if Rotates(log, a.buffer) {
      CountedAfterRotation(log, a.fault, exact);
      RotationDropsTheOldest(log, a.fault);
    }
    if rotated.ok && a.accepted.Some? {
      var piece := a.buffer[..a.accepted.value];
      NoOverflow(rotated.log.bytes, |a.buffer|, |piece|);
      AppendKeepsCount(rotated.log, piece, exactNow);
    }
  }

  lemma AppendedSize(log: Log, piece: Bytes)
    requires WellFormed(log)
    ensures WellFormed(Append(log, piece)) && Append(log, piece).bytes == log.bytes
    ensures |Text(OpenFile(Append(log, piece)))| == |Text(OpenFile(log))| + |piece|
  {
    if piece != [] {
      TextAppend(OpenFile(log), piece);
    }
  }

  lemma {:induction false} ShiftAllKeepsCaps(log: Log, slot: nat, fault: Fault)
    requires WellFormed(log) && slot < RETAINED_ARCHIVES && AllCapped(log)
    ensures AllCapped(ShiftAll(log, slot, fault).log)
    decreases slot
  {
    hide Capped;
    if !FailsAt(fault, log, slot) {
      assert AllCapped(Shift(log, slot));
      if slot > 0 {
        ShiftAllKeepsCaps(Shift(log, slot), slot - 1, fault);
      }
    }
  }

  lemma RotationKeepsCaps(log: Log, fault: Fault)
    requires WellFormed(log) && AllCapped(log)
    ensures AllCapped(Rotate(log, fault).log)
  {
    assert Capped([]);
    hide Capped;
    if !fault.Flush? && !fault.RemoveOldest? {
      var removed := Remove(log, RETAINED_ARCHIVES);
      assert AllCapped(removed);
      ShiftAllKeepsCaps(removed, RETAINED_ARCHIVES - 1, fault);
    }
  }

  /** Every file stays within the cap, or is a single write that was larger than it. */
  lemma WriteKeepsCaps(log: Log, a: Attempt)
    requires WellFormed(log) && Newest(log) && Possible(a) && Counted(log, false) && AllCapped(log)
    ensures AllCapped(Write(log, a).log)
  {
    hide Newest;
    var rotated := if Rotates(log, a.buffer) then Rotate(log, a.fault) else Rotated(log, true);
    if Rotates(log, a.buffer) {
      CountedAfterRotation(log, a.fault, false);
      RotationDropsTheOldest(log, a.fault);
      RotationKeepsCaps(log, a.fault);
    }
    hide Rotate;
    if rotated.ok && a.accepted.Some? {
      NoOverflow(rotated.log.bytes, |a.buffer|, a.accepted.value);
      var piece := a.buffer[..a.accepted.value];
      NoTextNoPieces(OpenFile(rotated.log));
      AppendKeepsCaps(rotated.log, piece);
    }
  }

  lemma AppendKeepsCaps(log: Log, piece: Bytes)
    requires WellFormed(log) && AllCapped(log)
    requires OpenFile(log) == [] || |Text(OpenFile(log))| + |piece| <= MAX_BYTES
    ensures AllCapped(Append(log, piece))
  {
    if piece != [] {
      TextAppend(OpenFile(log), piece);
      assert Capped(Grown(OpenFile(log), piece));
      hide Capped;
    }
  }

  lemma {:induction false} NoTextNoPieces(f: File)
    ensures |Text(f)| >= |f|
  {
    if f != [] {
      NoTextNoPieces(f[..|f| - 1]);
    }
  }

  predicate PermissionsSet(attempts: seq<Attempt>) {
    attempts == [] || (PermissionsSet(attempts[..|attempts| - 1]) && !attempts[|attempts| - 1].fault.SetPermissions?)
  }

  lemma {:induction false} RunKeepsSizes(log: Log, exact: bool, attempts: seq<Attempt>)
    requires WellFormed(log) && Newest(log) && forall a :: a in attempts ==> Possible(a)
    requires Counted(log, exact) && AllCapped(log)
    ensures var r := After(log, attempts);
      && Newest(r) && AllCapped(r)
      && Counted(r, exact && PermissionsSet(attempts))
  {
    hide Write;
    hide Counted;
    hide AllCapped;
    hide Newest;
    hide Retained;
    hide EndsWith;
    hide Added;
    if attempts != [] {
      var (rest, last) := (attempts[..|attempts| - 1], attempts[|attempts| - 1]);
      RunKeepsSizes(log, exact, rest);
      var before := After(log, rest);
      EndsWithItself(Retained(before.slots));
      WriteKeepsSuffix(before, last, Retained(before.slots));
      WriteKeepsCount(before, last, exact && PermissionsSet(rest));
      LessExact(before, exact && PermissionsSet(rest));
      WriteKeepsCaps(before, last);
    }
  }

  lemma LessExact(log: Log, exact: bool)
    requires WellFormed(log) && Counted(log, exact)
    ensures Counted(log, false)
  {
  }

  /** From an opened log on, which is rotated first when it was found full: the counter is the size of the
      open file unless setting permissions failed, and every file is within the cap or a single write. */
  lemma SizesAreKept(found: seq<Option<File>>, fault: Fault, attempts: seq<Attempt>)
    requires |found| == RETAINED_ARCHIVES + 1 && forall a :: a in attempts ==> Possible(a)
    requires forall i :: 0 <= i <= RETAINED_ARCHIVES && found[i].Some? ==> Capped(found[i].value)
    requires Opened(found).bytes <= U64_MAX
    ensures var start := Opened(found); var full := start.bytes >= MAX_BYTES;
            var log := After(if full then Rotate(start, fault).log else start, attempts);
      && (forall i :: 0 <= i <= RETAINED_ARCHIVES && log.slots[i].Some? ==> Capped(log.slots[i].value))
      && |Text(OpenFile(log))| <= log.bytes
      && (PermissionsSet(attempts) && !(full && fault.SetPermissions?) ==> log.bytes == |Text(OpenFile(log))|)
  {
    var start := Opened(found);
    if start.bytes >= MAX_BYTES {
      CountedAfterRotation(start, fault, true);
      RotationDropsTheOldest(start, fault);
      RotationKeepsCaps(start, fault);
      var log := Rotate(start, fault).log;
      hide Rotate;
      RunKeepsSizes(log, !fault.SetPermissions?, attempts);
    } else {
      RunKeepsSizes(start, true, attempts);
    }
  }
}
