/** Text with ANSI escape sequences (crates/usage-cli/src/render/style.rs): its visible length, the
    text without the sequences, truncation, and painting. */
module AnsiText {

  const ESCAPE: char := '\U{1B}'
  const ELLIPSIS: char := '\U{2026}'

  /** Where a reader stands: in plain text, right behind an escape character, or inside a sequence. */
  datatype Mode = Ground | AfterEscape | InSequence

  predicate Terminates(c: char) {
    '@' <= c <= '~'
  }

  function Next(mode: Mode, c: char): Mode {
    match mode
    case Ground => if c == ESCAPE then AfterEscape else Ground
    case AfterEscape => if c != '[' && Terminates(c) then Ground else InSequence
    case InSequence => if Terminates(c) then Ground else InSequence
  }

  /** The characters that show. */
  function Shown(s: string, mode: Mode): string {
    if s == "" then ""
    else (if mode.Ground? && s[0] != ESCAPE then [s[0]] else "") + Shown(s[1..], Next(mode, s[0]))
  }

  function ModeAfter(s: string, mode: Mode): Mode {
    if s == "" then mode else ModeAfter(s[1..], Next(mode, s[0]))
  }

  function Strip(s: string): string {
    Shown(s, Ground)
  }

  /** Every sequence that starts in `s` also ends there. */
  predicate WellFormed(s: string) {
    ModeAfter(s, Ground) == Ground
  }

  // ----- The loops -----

  lemma OneCharacter(value: string, i: nat, mode: Mode)
    requires i < |value|
    ensures Shown(value[i..], mode)
            == (if mode.Ground? && value[i] != ESCAPE then [value[i]] else "") + Shown(value[i + 1..], Next(mode, value[i]))
  {
    assert value[i..][1..] == value[i + 1..];
  }

  lemma NothingLeft(value: string, mode: Mode)
    ensures Shown(value[|value|..], mode) == ""
  {
  }

  /** Without a bracket behind it, an escape character opens a sequence by itself. */
  lemma BareEscape(value: string, i: nat)
    requires i <= |value| && (i < |value| ==> value[i] != '[')
    ensures Shown(value[i..], AfterEscape) == Shown(value[i..], InSequence)
  {
  }

  /** The position behind the sequence whose escape character is right before `start`. */
  method SkipSequence(value: string, start: nat) returns (end: nat)
    requires start <= |value|
    ensures start <= end <= |value|
    ensures Shown(value[end..], Ground) == Shown(value[start..], AfterEscape)
  {
    hide Shown;
    end := start;
    if end < |value| && value[end] == '[' {
      OneCharacter(value, end, AfterEscape);
      end := end + 1;
    } else {
      BareEscape(value, end);
    }
    NothingLeft(value, InSequence);
    NothingLeft(value, Ground);
    ghost var rest := Shown(value[start..], AfterEscape);
    while end < |value| && !Terminates(value[end])
      invariant start <= end <= |value| && Shown(value[end..], InSequence) == rest
    {
      OneCharacter(value, end, InSequence);
      end := end + 1;
    }
    if end < |value| {
      OneCharacter(value, end, InSequence);
      end := end + 1;
    }
  }

  /** `visible_len`. */
  method VisibleLen(value: string) returns (len: nat)
    ensures len == |Strip(value)|
  {
    hide Shown;
    len := 0;
    var i := 0;
    assert value[0..] == value;
    while i < |value|
      invariant 0 <= i <= |value| && len + |Shown(value[i..], Ground)| == |Strip(value)|
    {
      var c := value[i];
      OneCharacter(value, i, Ground);
      i := i + 1;
      if c == ESCAPE {
        i := SkipSequence(value, i);
      } else {
        len := len + 1;
      }
    }
    NothingLeft(value, Ground);
  }

  /** `strip_ansi_inner`. */
  method StripAnsi(value: string) returns (stripped: string)
    ensures stripped == Strip(value)
  {
    hide Shown;
    stripped := "";
    var i := 0;
    assert value[0..] == value;
    while i < |value|
      invariant 0 <= i <= |value| && stripped + Shown(value[i..], Ground) == Strip(value)
    {
      var c := value[i];
      OneCharacter(value, i, Ground);
      i := i + 1;
      if c == ESCAPE {
        i := SkipSequence(value, i);
      } else {
        stripped := stripped + [c];
      }
    }
    NothingLeft(value, Ground);
  }

  function Width(s: string): nat {
    |Strip(s)|
  }

  /** `truncate`. */
  function Truncate(value: string, max: nat): string {
    if Width(value) <= max then value
    else Strip(value)[..if max == 0 then 0 else max - 1] + [ELLIPSIS]
  }

  datatype Theme = Theme(color: bool)

  /** `paint`. */
  function Paint(theme: Theme, code: string, value: string): string {
    if theme.color then [ESCAPE] + "[" + code + "m" + value + [ESCAPE] + "[0m" else value
  }

  /** A style code: parameters only. */
  predicate Code(code: string) {
    forall c :: c in code ==> !Terminates(c)
  }

  // ----- Laws -----

  lemma {:induction false} ShownConcat(a: string, b: string, mode: Mode)
    ensures Shown(a + b, mode) == Shown(a, mode) + Shown(b, ModeAfter(a, mode))
    ensures ModeAfter(a + b, mode) == ModeAfter(b, ModeAfter(a, mode))
  {
    if a == "" {
      assert a + b == b;
    } else {
      assert (a + b)[0] == a[0] && (a + b)[1..] == a[1..] + b;
      ShownConcat(a[1..], b, Next(mode, a[0]));
    }
  }

  /** Behind a well-formed text another shows as it is. */
  lemma StripAdds(a: string, b: string)
    requires WellFormed(a)
    ensures Strip(a + b) == Strip(a) + Strip(b) && WellFormed(a + b) == WellFormed(b)
  {
    ShownConcat(a, b, Ground);
  }

  /** Widths of well-formed texts add up. */
  lemma WidthAdds(a: string, b: string)
    requires WellFormed(a)
    ensures Width(a + b) == Width(a) + Width(b) && WellFormed(a + b) == WellFormed(b)
  {
    ShownConcat(a, b, Ground);
  }

  lemma {:induction false} PlainText(s: string)
    requires ESCAPE !in s
    ensures Strip(s) == s && WellFormed(s)
  {
    if s != "" {
      PlainText(s[1..]);
    }
  }

  lemma {:induction false} ShownIsPlain(s: string, mode: Mode)
    ensures ESCAPE !in Shown(s, mode)
  {
    if s != "" {
      ShownIsPlain(s[1..], Next(mode, s[0]));
    }
  }

  /** Stripping leaves nothing to strip. */
  lemma StripIsIdempotent(s: string)
    ensures Strip(Strip(s)) == Strip(s) && WellFormed(Strip(s))
  {
    ShownIsPlain(s, Ground);
    PlainText(Strip(s));
  }

  /** What does not fit is cut to exactly the width asked for (and to one character when that is 0);
      what fits stays as it is. */
  lemma TruncateFits(value: string, max: nat)
    ensures Width(value) <= max ==> Truncate(value, max) == value
    ensures Width(value) > max ==> Width(Truncate(value, max)) == if max == 0 then 1 else max
    ensures Width(value) > max ==> WellFormed(Truncate(value, max))
  {
    if Width(value) > max {
      ShownIsPlain(value, Ground);
      PlainText(Truncate(value, max));
    }
  }

  /** What shows of a text that is cut: its first visible characters and an ellipsis. */
  lemma TruncateShows(value: string, max: nat)
    ensures Strip(Truncate(value, max))
            == if |Strip(value)| <= max then Strip(value)
               else Strip(value)[..if max == 0 then 0 else max - 1] + ['\U{2026}']
  {
    if Width(value) > max {
      ShownIsPlain(value, Ground);
      PlainText(Truncate(value, max));
    }
  }

  lemma {:induction false} Parameters(code: string)
    requires Code(code)
    ensures Shown(code, InSequence) == "" && ModeAfter(code, InSequence) == InSequence
  {
    if code != "" {
      Parameters(code[1..]);
    }
  }

  lemma Opening(code: string)
    requires Code(code)
    ensures Strip([ESCAPE] + "[" + code + "m") == "" && WellFormed([ESCAPE] + "[" + code + "m")
  {
    var s := [ESCAPE] + "[" + code + "m";
    Parameters(code);
    ShownConcat(code, "m", InSequence);
    FirstCharacter('m', "", InSequence);
    FirstCharacter('[', code + "m", AfterEscape);
    FirstCharacter(ESCAPE, "[" + (code + "m"), Ground);
    assert s == [ESCAPE] + ("[" + (code + "m")) && "m" + "" == "m";
  }

  lemma FirstCharacter(c: char, rest: string, mode: Mode)
    ensures Shown([c] + rest, mode) == (if mode.Ground? && c != ESCAPE then [c] else "") + Shown(rest, Next(mode, c))
    ensures ModeAfter([c] + rest, mode) == ModeAfter(rest, Next(mode, c))
  {
    assert ([c] + rest)[1..] == rest;
  }

  /** A sequence ends with the first character from 0x40 to 0x7E behind its bracket, and nothing of it shows. */
  lemma SequenceIsRemoved(parameters: string, last: char, rest: string)
    requires forall c :: c in parameters ==> !(0x40 <= c as int <= 0x7E)
    requires 0x40 <= last as int <= 0x7E
    ensures Strip([ESCAPE] + "[" + parameters + [last] + rest) == Strip(rest)
  {
    var tail := [last] + rest;
    Parameters(parameters);
    ShownConcat(parameters, tail, InSequence);
    FirstCharacter(last, rest, InSequence);
    FirstCharacter('[', parameters + tail, AfterEscape);
    FirstCharacter(ESCAPE, "[" + (parameters + tail), Ground);
    assert [ESCAPE] + "[" + parameters + [last] + rest == [ESCAPE] + ("[" + (parameters + tail));
  }

  /** What the closing sequence shows depends on where the value ends. */
  lemma Closing(mode: Mode)
    ensures Shown([ESCAPE] + "[0m", mode) == (if mode.Ground? then "" else "0m")
    ensures ModeAfter([ESCAPE] + "[0m", mode) == Ground
  {
    var s := [ESCAPE] + "[0m";
    assert s[1..] == "[0m" && "[0m"[1..] == "0m" && "0m"[1..] == "m" && "m"[1..] == "";
  }

  /** Painting adds no width exactly when the value is well formed (or nothing is painted); behind an
      open sequence the closing code loses its start and two of its characters show. */
  lemma PaintWidth(theme: Theme, code: string, value: string)
    requires Code(code)
    ensures Width(Paint(theme, code, value)) == Width(value) + if theme.color && !WellFormed(value) then 2 else 0
    ensures WellFormed(Paint(theme, code, value)) <==> theme.color || WellFormed(value)
    ensures WellFormed(value) ==> Strip(Paint(theme, code, value)) == Strip(value)
  {
    if theme.color {
      var head, tail := [ESCAPE] + "[" + code + "m", [ESCAPE] + "[0m";
      assert Paint(theme, code, value) == head + (value + tail);
      Opening(code);
      ShownConcat(head, value + tail, Ground);
      ShownConcat(value, tail, Ground);
      Closing(ModeAfter(value, Ground));
    }
  }
}
