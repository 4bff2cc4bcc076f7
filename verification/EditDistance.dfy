/** The edit distance behind "did you mean" (crates/usage-cli/src/selection.rs): the two-row loop
    computes the Levenshtein distance, which is the length of a shortest editing script, and the
    suggestion it drives is the first best candidate. */
module EditDistance {
  import opened Numbers
  import opened Sequences
  import opened Wrappers

  // ----- The distance, by recursion on the last characters -----

  function Init(s: string): string
    requires s != ""
  {
    s[..|s| - 1]
  }

  function Last(s: string): char
    requires s != ""
  {
    s[|s| - 1]
  }

  function Lev(left: string, right: string): nat
    decreases |left| + |right|
  {
    if left == "" then |right|
    else if right == "" then |left|
    else Min(Min(Lev(Init(left), right) + 1, Lev(left, Init(right)) + 1),
             Lev(Init(left), Init(right)) + if Last(left) != Last(right) then 1 else 0)
  }

  lemma Border(s: string)
    ensures Lev("", s) == |s| == Lev(s, "")
  {
  }

  lemma LastStep(left: string, right: string, above: nat, before: nat, across: nat)
    requires left != "" && right != ""
    requires above == Lev(Init(left), right) && before == Lev(left, Init(right)) && across == Lev(Init(left), Init(right))
    ensures Lev(left, right) == Min(Min(above + 1, before + 1), across + if Last(left) != Last(right) then 1 else 0)
  {
  }

  /** One cell of the table, from its three neighbours. */
  lemma Cell(left: string, right: string, i: nat, j: nat)
    requires i < |left| && j < |right|
    ensures Lev(left[..i + 1], right[..j + 1])
            == Min(Min(Lev(left[..i], right[..j + 1]) + 1, Lev(left[..i + 1], right[..j]) + 1),
                   Lev(left[..i], right[..j]) + if left[i] != right[j] then 1 else 0)
  {
    hide Lev;
    assert Init(left[..i + 1]) == left[..i] && Init(right[..j + 1]) == right[..j];
    LastStep(left[..i + 1], right[..j + 1], Lev(left[..i], right[..j + 1]), Lev(left[..i + 1], right[..j]),
             Lev(left[..i], right[..j]));
  }

  /** The loop of the source: one row of distances per character of `left`. */
  method Distance(left: string, right: string) returns (distance: nat)
    ensures distance == Lev(left, right)
  {
    hide Lev;
    var previous := seq(|right| + 1, j => j);
    forall j | 0 <= j <= |right|
      ensures previous[j] == Lev(left[..0], right[..j])
    {
      Border(right[..j]);
    }
    for i := 0 to |left|
      invariant |previous| == |right| + 1
      invariant forall j :: 0 <= j <= |right| ==> previous[j] == Lev(left[..i], right[..j])
    {
      var current := [i + 1];
      Border(left[..i + 1]);
      for j := 0 to |right|
        invariant |current| == j + 1
        invariant forall k :: 0 <= k <= j ==> current[k] == Lev(left[..i + 1], right[..k])
      {
        Cell(left, right, i, j);
        current := current + [Min(Min(previous[j + 1] + 1, current[j] + 1),
                                  previous[j] + if left[i] != right[j] then 1 else 0)];
      }
      previous := current;
    }
    assert left[..|left|] == left && right[..|right|] == right;
    distance := previous[|right|];
  }

  // ----- Editing scripts -----

  datatype Edit = Insert(at: nat, c: char) | Delete(at: nat) | Replace(at: nat, c: char)

  predicate Fits(e: Edit, s: string) {
    if e.Insert? then e.at <= |s| else e.at < |s|
  }

  /** `s` with `count` characters at `at` replaced by `text`. */
  function Splice(s: string, at: nat, count: nat, text: string): string
    requires at + count <= |s|
  {
    s[..at] + text + s[at + count..]
  }

  function Apply(e: Edit, s: string): string
    requires Fits(e, s)
  {
    match e
    case Insert(at, c) => Splice(s, at, 0, [c])
    case Delete(at) => Splice(s, at, 1, "")
    case Replace(at, c) => Splice(s, at, 1, [c])
  }

  /** `script`, played from its first edit on, turns `source` into `target`. */
  predicate Turns(script: seq<Edit>, source: string, target: string) {
    if script == [] then source == target
    else Fits(script[0], source) && Turns(script[1..], Apply(script[0], source), target)
  }

  lemma {:induction false} TurnsThrough(first: seq<Edit>, second: seq<Edit>, a: string, b: string, c: string)
    requires Turns(first, a, b) && Turns(second, b, c)
    ensures Turns(first + second, a, c)
  {
    if first == [] {
      assert first + second == second;
    } else {
      assert (first + second)[0] == first[0] && (first + second)[1..] == first[1..] + second;
      TurnsThrough(first[1..], second, Apply(first[0], a), b, c);
    }
  }

  lemma SpliceBefore(s: string, at: nat, count: nat, text: string, tail: string)
    requires at + count <= |s|
    ensures Splice(s + tail, at, count, text) == Splice(s, at, count, text) + tail
  {
    assert (s + tail)[..at] == s[..at] && (s + tail)[at + count..] == s[at + count..] + tail;
    Associative(s[..at] + text, s[at + count..], tail);
  }

  lemma ApplyBefore(e: Edit, s: string, tail: string)
    requires Fits(e, s)
    ensures Apply(e, s + tail) == Apply(e, s) + tail
  {
    hide Splice;
    match e
    case Insert(at, c) => SpliceBefore(s, at, 0, [c], tail);
    case Delete(at) => SpliceBefore(s, at, 1, "", tail);
    case Replace(at, c) => SpliceBefore(s, at, 1, [c], tail);
  }

  /** A script also works in front of an untouched tail. */
  lemma {:induction false} TurnsBefore(script: seq<Edit>, source: string, target: string, tail: string)
    requires Turns(script, source, target)
    ensures Turns(script, source + tail, target + tail)
  {
    hide Apply;
    if script != [] {
      var e := script[0];
      TurnsBefore(script[1..], Apply(e, source), target, tail);
      ApplyBefore(e, source, tail);
    }
  }

  /** Drop the last character, then go on. */
  lemma DeleteFirst(rest: seq<Edit>, source: string, target: string)
    requires source != "" && Turns(rest, Init(source), target)
    ensures Turns([Delete(|source| - 1)] + rest, source, target)
  {
    var e := Delete(|source| - 1);
    assert Apply(e, source) == Init(source);
    PlayFirst(e, rest, source, target);
  }

  /** Reach all but the last character, then append it. */
  lemma InsertLast(start: seq<Edit>, source: string, target: string)
    requires target != "" && Turns(start, source, Init(target))
    ensures Turns(start + [Insert(|target| - 1, Last(target))], source, target)
  {
    var e := Insert(|target| - 1, Last(target));
    assert Apply(e, Init(target)) == target;
    assert Turns([e], Init(target), target) by {
      assert Turns([e][1..], target, target);
    }
    TurnsThrough(start, [e], source, Init(target), target);
  }

  /** Settle the last character, then edit in front of it. */
  lemma SettleLast(start: seq<Edit>, source: string, target: string) returns (script: seq<Edit>)
    requires source != "" && target != "" && Turns(start, Init(source), Init(target))
    ensures Turns(script, source, target)
    ensures |script| == |start| + if Last(source) != Last(target) then 1 else 0
  {
    hide Turns;
    TurnsBefore(start, Init(source), Init(target), [Last(target)]);
    LastReplaced(target, Last(target));
    LastReplaced(source, Last(target));
    if Last(source) == Last(target) {
      script := start;
    } else {
      var e := Replace(|source| - 1, Last(target));
      PlayFirst(e, start, source, target);
      script := [e] + start;
    }
  }

  lemma LastReplaced(s: string, c: char)
    requires s != ""
    ensures Apply(Replace(|s| - 1, c), s) == Init(s) + [c]
    ensures c == Last(s) ==> Init(s) + [c] == s
  {
  }

  lemma PlayFirst(e: Edit, rest: seq<Edit>, source: string, target: string)
    requires Fits(e, source) && Turns(rest, Apply(e, source), target)
    ensures Turns([e] + rest, source, target)
  {
    assert ([e] + rest)[1..] == rest;
  }

  /** Some script is exactly as long as the distance. */
  lemma {:induction false} ScriptOfDistance(source: string, target: string) returns (script: seq<Edit>)
    ensures Turns(script, source, target) && |script| == Lev(source, target)
    decreases |source| + |target|
  {
    if source == "" && target == "" {
      script := [];
    } else if target == "" || (source != "" && Lev(source, target) == Lev(Init(source), target) + 1) {
      var rest := ScriptOfDistance(Init(source), target);
      DeleteFirst(rest, source, target);
      script := [Delete(|source| - 1)] + rest;
    } else if source == "" || Lev(source, target) == Lev(source, Init(target)) + 1 {
      var start := ScriptOfDistance(source, Init(target));
      InsertLast(start, source, target);
      script := start + [Insert(|target| - 1, Last(target))];
    } else {
      var start := ScriptOfDistance(Init(source), Init(target));
      script := SettleLast(start, source, target);
    }
  }

  lemma {:induction false} ZeroToItself(s: string)
    ensures Lev(s, s) == 0
  {
    if s != "" {
      ZeroToItself(Init(s));
    }
  }

  /** Two strings that differ in at most one position are almost equally far from any third. */
  lemma {:induction false} OneEditMovesByOne(p: string, u: string, v: string, s: string, target: string)
    requires |u| <= 1 && |v| <= 1
    ensures Lev(p + u + s, target) <= Lev(p + v + s, target) + 1
    decreases |s| + |target|
  {
    var x, y := p + u + s, p + v + s;
    if s != "" {
      assert Init(x) == p + u + Init(s) && Init(y) == p + v + Init(s);
      OneEditMovesByOne(p, u, v, Init(s), target);
      if target != "" {
        OneEditMovesByOne(p, u, v, s, Init(target));
        OneEditMovesByOne(p, u, v, Init(s), Init(target));
      }
    } else {
      assert x == p + u && y == p + v;
      LastEditMovesByOne(p, u, v, target);
    }
  }

  lemma {:induction false} LastEditMovesByOne(p: string, u: string, v: string, target: string)
    requires |u| <= 1 && |v| <= 1
    ensures Lev(p + u, target) <= Lev(p + v, target) + 1
    decreases |target|
  {
    LastMovesByOne(p, u, target);
    if v == "" {
      assert p + v == p;
    } else if target == "" {
      Border(p + u);
      Border(p + v);
    } else {
      hide Lev;
      LastEditMovesByOne(p, u, v, Init(target));
      Options(p + v, target);
      assert Init(p + v) == p;
      AppendMovesByOne(p + u, target);
      LastPairMovesByOne(p, u, target);
    }
  }

  /** Appending at most one character to the left moves the distance up by at most one. */
  lemma LastMovesByOne(p: string, u: string, target: string)
    requires |u| <= 1
    ensures Lev(p + u, target) <= Lev(p, target) + 1
  {
    if u != "" {
      assert Init(p + u) == p;
    } else {
      assert p + u == p;
    }
  }

  lemma AppendMovesByOne(source: string, target: string)
    requires target != ""
    ensures Lev(source, target) <= Lev(source, Init(target)) + 1
  {
  }

  lemma LastPairMovesByOne(p: string, u: string, target: string)
    requires |u| <= 1 && target != ""
    ensures Lev(p + u, target) <= Lev(p, Init(target)) + 1
  {
    if u != "" {
      assert Init(p + u) == p;
    } else {
      assert p + u == p;
    }
  }

  lemma Options(source: string, target: string)
    requires source != "" && target != ""
    ensures || Lev(source, target) == Lev(Init(source), target) + 1
            || Lev(source, target) == Lev(source, Init(target)) + 1
            || Lev(source, target) >= Lev(Init(source), Init(target))
  {
    hide Lev;
    LastStep(source, target, Lev(Init(source), target), Lev(source, Init(target)), Lev(Init(source), Init(target)));
  }

  lemma SpliceMovesByOne(source: string, at: nat, count: nat, text: string, target: string)
    requires at + count <= |source| && count <= 1 && |text| <= 1
    ensures Lev(source, target) <= Lev(Splice(source, at, count, text), target) + 1
  {
    hide Lev;
    assert source == source[..at] + source[at..at + count] + source[at + count..];
    OneEditMovesByOne(source[..at], source[at..at + count], text, source[at + count..], target);
  }

  lemma EditMovesByOne(e: Edit, source: string, target: string)
    requires Fits(e, source)
    ensures Lev(source, target) <= Lev(Apply(e, source), target) + 1
  {
    hide Lev;
    hide Splice;
    match e
    case Insert(at, c) => SpliceMovesByOne(source, at, 0, [c], target);
    case Delete(at) => SpliceMovesByOne(source, at, 1, "", target);
    case Replace(at, c) => SpliceMovesByOne(source, at, 1, [c], target);
  }

  /** No script is shorter than the distance. */
  lemma {:induction false} NoShorterScript(script: seq<Edit>, source: string, target: string)
    requires Turns(script, source, target)
    ensures Lev(source, target) <= |script|
  {
    if script == [] {
      ZeroToItself(source);
    } else {
      EditMovesByOne(script[0], source, target);
      NoShorterScript(script[1..], Apply(script[0], source), target);
    }
  }

  /** The distance is the least number of insertions, deletions and substitutions. */
  lemma DistanceIsLeast(source: string, target: string)
    ensures exists script :: Turns(script, source, target) && |script| == Lev(source, target)
    ensures forall script :: Turns(script, source, target) ==> Lev(source, target) <= |script|
  {
    var script := ScriptOfDistance(source, target);
    forall other | Turns(other, source, target)
      ensures Lev(source, target) <= |other|
    {
      NoShorterScript(other, source, target);
    }
  }

  // ----- It is a metric -----

  lemma {:induction false} ZeroExactlyWhenEqual(a: string, b: string)
    ensures Lev(a, b) == 0 <==> a == b
  {
    ZeroToItself(a);
    var script := ScriptOfDistance(a, b);
  }

  lemma {:induction false} Symmetric(a: string, b: string)
    ensures Lev(a, b) == Lev(b, a)
    decreases |a| + |b|
  {
    if a != "" && b != "" {
      Symmetric(Init(a), b);
      Symmetric(a, Init(b));
      Symmetric(Init(a), Init(b));
    }
  }

  lemma {:induction false} TriangleInequality(a: string, b: string, c: string)
    ensures Lev(a, c) <= Lev(a, b) + Lev(b, c)
  {
    var first := ScriptOfDistance(a, b);
    var second := ScriptOfDistance(b, c);
    TurnsThrough(first, second, a, b, c);
    NoShorterScript(first + second, a, c);
  }

  // ----- The suggestion -----

  /** Bytes of the UTF-8 encoding: what the source's `len` counts. */
  function ByteLength(s: string): nat {
    if s == "" then 0
    else ByteLength(Init(s)) +
         (var code := Last(s) as int; if code < 0x80 then 1 else if code < 0x800 then 2 else if code < 0x10000 then 3 else 4)
  }

  function AsciiLower(s: string): string {
    seq(|s|, i requires 0 <= i < |s| => if 'A' <= s[i] <= 'Z' then (s[i] as int + 32) as char else s[i])
  }

  predicate Plausible(token: string, candidate: string) {
    var normalized := AsciiLower(token);
    Lev(normalized, candidate) <= 2
    || (ByteLength(token) >= 4 && (if |normalized| < 3 then normalized else normalized[..3]) <= AsciiLower(candidate))
  }

  /** `a` sorts strictly before `b` by distance to the token, then by length. */
  predicate Better(token: string, a: string, b: string) {
    var (x, y) := (Lev(AsciiLower(token), a), Lev(AsciiLower(token), b));
    x < y || (x == y && ByteLength(a) < ByteLength(b))
  }

  /** The iterator chain: keep the plausible candidates, then the minimum by key. */
  function Suggestion(token: string, candidates: seq<string>): Option<string> {
    if candidates == [] then None
    else
      var earlier, candidate := Suggestion(token, candidates[..|candidates| - 1]), candidates[|candidates| - 1];
      if Plausible(token, candidate) && (earlier.None? || Better(token, candidate, earlier.value)) then Some(candidate)
      else earlier
  }

  ghost predicate IsFirstBest(token: string, candidates: seq<string>, k: nat)
    requires k < |candidates|
  {
    && Plausible(token, candidates[k])
    && (forall i :: 0 <= i < |candidates| && Plausible(token, candidates[i]) ==> !Better(token, candidates[i], candidates[k]))
    && (forall i :: 0 <= i < k && Plausible(token, candidates[i]) ==> Better(token, candidates[k], candidates[i]))
  }

  lemma BetterOrders(token: string, a: string, b: string, c: string)
    ensures Better(token, a, b) && !Better(token, c, b) ==> Better(token, a, c)
    ensures Better(token, a, c) ==> !Better(token, c, a)
  {
    hide Lev;
    hide ByteLength;
  }

  lemma LaterIsBetter(token: string, candidates: seq<string>, k: nat)
    requires k + 1 < |candidates| && IsFirstBest(token, candidates[..|candidates| - 1], k)
    requires Plausible(token, candidates[|candidates| - 1])
    requires Better(token, candidates[|candidates| - 1], candidates[k])
    ensures IsFirstBest(token, candidates, |candidates| - 1)
  {
    hide Plausible;
    hide Better;
    var rest, n := candidates[..|candidates| - 1], |candidates| - 1;
    forall i | 0 <= i < n && Plausible(token, candidates[i])
      ensures Better(token, candidates[n], candidates[i]) && !Better(token, candidates[i], candidates[n])
    {
      assert rest[i] == candidates[i];
      BetterOrders(token, candidates[n], candidates[k], candidates[i]);
    }
    BetterOrders(token, candidates[n], candidates[n], candidates[n]);
  }

  lemma EarlierStays(token: string, candidates: seq<string>, k: nat)
    requires k + 1 < |candidates| && IsFirstBest(token, candidates[..|candidates| - 1], k)
    requires !Plausible(token, candidates[|candidates| - 1]) || !Better(token, candidates[|candidates| - 1], candidates[k])
    ensures IsFirstBest(token, candidates, k)
  {
    hide Plausible;
    hide Better;
    var rest := candidates[..|candidates| - 1];
    assert forall i :: 0 <= i < |rest| ==> rest[i] == candidates[i];
  }

  /** The suggestion is the first of the best plausible candidates, and there is one exactly when
      some candidate is plausible. */
  lemma {:induction false} SuggestionIsFirstBest(token: string, candidates: seq<string>) returns (k: nat)
    ensures Suggestion(token, candidates).None? <==>
            forall i :: 0 <= i < |candidates| ==> !Plausible(token, candidates[i])
    ensures Suggestion(token, candidates).Some? ==>
      k < |candidates| && IsFirstBest(token, candidates, k) && Suggestion(token, candidates) == Some(candidates[k])
  {
    hide Plausible;
    hide Better;
    k := 0;
    if candidates != [] {
      var n := |candidates| - 1;
      var rest := candidates[..n];
      var best := Suggestion(token, rest);
      k := SuggestionIsFirstBest(token, rest);
      assert forall i :: 0 <= i < n ==> rest[i] == candidates[i];
      if best.None? {
        if Plausible(token, candidates[n]) {
          BetterOrders(token, candidates[n], candidates[n], candidates[n]);
          k := n;
        }
      } else if Plausible(token, candidates[n]) && Better(token, candidates[n], best.value) {
        LaterIsBetter(token, candidates, k);
        k := n;
      } else {
        EarlierStays(token, candidates, k);
      }
    }
  }

  /** A typo of at most two edits is always answered, and the answer is no further away. */
  lemma {:induction false} TyposAreCaught(token: string, candidates: seq<string>, k: nat, script: seq<Edit>)
    requires k < |candidates| && |script| <= 2 && Turns(script, AsciiLower(token), candidates[k])
    ensures var answer := Suggestion(token, candidates);
            answer.Some? && Lev(AsciiLower(token), answer.value) <= |script|
  {
    NoShorterScript(script, AsciiLower(token), candidates[k]);
    var answer := SuggestionIsFirstBest(token, candidates);
    assert Plausible(token, candidates[k]);
  }

  ghost predicate TwoEditsAway(source: string, target: string) {
    exists script :: |script| <= 2 && Turns(script, source, target)
  }

  /** The same first characters, up to three. */
  predicate StartsAlike(a: string, b: string) {
    forall i :: 0 <= i < |a| && i < 3 ==> i < |b| && a[i] == b[i]
  }

  /** A candidate may be suggested: two edits lead to it from the lower-case token, or the token is at least
      four bytes long and the candidate starts like it, whatever the case. */
  ghost predicate Near(token: string, candidate: string) {
    || TwoEditsAway(AsciiLower(token), candidate)
    || (ByteLength(token) >= 4 && StartsAlike(AsciiLower(token), AsciiLower(candidate)))
  }

  lemma CloseIsTwoEdits(source: string, target: string)
    ensures Lev(source, target) <= 2 <==> TwoEditsAway(source, target)
  {
    DistanceIsLeast(source, target);
    hide Lev;
    hide Turns;
  }

  lemma PrefixStartsAlike(a: string, b: string)
    ensures (if |a| < 3 then a else a[..3]) <= b <==> StartsAlike(a, b)
  {
    var start := if |a| < 3 then a else a[..3];
    if start <= b {
      assert forall i :: 0 <= i < |start| ==> a[i] == start[i] == b[i];
    }
    if StartsAlike(a, b) {
      if start != "" {
        assert a[|start| - 1] == start[|start| - 1];
      }
      assert forall i :: 0 <= i < |start| ==> start[i] == a[i] == b[i];
    }
  }

  lemma PlausibleIsNear(token: string, candidate: string)
    ensures Plausible(token, candidate) <==> Near(token, candidate)
  {
    CloseIsTwoEdits(AsciiLower(token), candidate);
    PrefixStartsAlike(AsciiLower(token), AsciiLower(candidate));
    hide Lev;
    hide ByteLength;
    hide AsciiLower;
    hide TwoEditsAway;
    hide StartsAlike;
  }

  /** A suggestion is never far-fetched: it is one of the candidates and near the token; and whenever some
      candidate is near, there is one. */
  lemma SuggestionsAreNear(token: string, candidates: seq<string>)
    ensures Suggestion(token, candidates).Some? <==> exists c :: c in candidates && Near(token, c)
    ensures Suggestion(token, candidates).Some? ==>
              Suggestion(token, candidates).value in candidates && Near(token, Suggestion(token, candidates).value)
  {
    var k := SuggestionIsFirstBest(token, candidates);
    forall c | c in candidates
      ensures Plausible(token, c) <==> Near(token, c)
    {
      PlausibleIsNear(token, c);
    }
    hide Plausible;
    hide Near;
    hide Better;
  }

  /** The answer is the nearest of the near candidates; of equally near ones it is the shortest, and of these
      the first. */
  lemma SuggestionIsLeast(token: string, candidates: seq<string>) returns (k: nat)
    ensures Suggestion(token, candidates).Some? ==>
      && k < |candidates| && Suggestion(token, candidates) == Some(candidates[k])
      && forall i :: 0 <= i < |candidates| && Near(token, candidates[i]) ==>
           var (mine, theirs) := (Lev(AsciiLower(token), candidates[k]), Lev(AsciiLower(token), candidates[i]));
           var (short, other) := (ByteLength(candidates[k]), ByteLength(candidates[i]));
           mine < theirs || (mine == theirs && (short < other || (short == other && k <= i)))
  {
    k := SuggestionIsFirstBest(token, candidates);
    forall i | 0 <= i < |candidates|
      ensures Plausible(token, candidates[i]) <==> Near(token, candidates[i])
    {
      PlausibleIsNear(token, candidates[i]);
    }
    hide Plausible;
    hide Near;
    hide Lev;
    hide ByteLength;
    hide AsciiLower;
  }

  /** Lower case, letter by letter: a capital becomes the letter at the same place in the small alphabet, and
      everything else stays. */
  lemma LowerCaseIs(s: string, i: nat)
    requires i < |s|
    ensures |AsciiLower(s)| == |s|
    ensures var (c, low) := (s[i] as int, AsciiLower(s)[i] as int);
            if 65 <= c <= 90 then 97 <= low <= 122 && low - 97 == c - 65 else low == c
  {
  }

  /** How many code points an encoding of `n` bytes has room for: seven bits in a single byte; otherwise 7 - n
      bits in the first byte and six in each other one. */
  function RoomFor(n: nat): nat {
    if n == 1 then Power(7) else if n < 1 then 0 else Power(7 - n + 6 * (n - 1))
  }

  function Power(bits: int): nat {
    if bits <= 0 then 1 else 2 * Power(bits - 1)
  }

  /** The byte length of a text is the sum over its characters of the shortest UTF-8 encoding of each. */
  lemma ByteLengthIs(s: string, c: char) returns (n: nat)
    ensures ByteLength("") == 0 && ByteLength(s + [c]) == ByteLength(s) + n
    ensures 1 <= n <= 4 && RoomFor(n - 1) <= c as int < RoomFor(n)
  {
    assert Init(s + [c]) == s && Last(s + [c]) == c;
    n := ByteLength(s + [c]) - ByteLength(s);
    assert Power(7) == 0x80;
    assert Power(11) == 0x800 by { assert Power(11) == 16 * Power(7); }
    assert Power(16) == 0x10000 by { assert Power(16) == 32 * Power(11); }
    assert Power(21) == 0x200000 by { assert Power(21) == 32 * Power(16); }
  }
}
