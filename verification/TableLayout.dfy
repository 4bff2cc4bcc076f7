/** Table layout (crates/usage-cli/src/render/table.rs): column widths, shrinking them to a maximum,
    and padded rows of equal visible width. */
module TableLayout {
  import opened AnsiText
  import opened Numbers
  import opened Wrappers

  const LEAST_WIDTH: nat := 3
  const RULE: char := '\U{2500}'
  const LABEL_CODE := "2;37"

  // ----- Column widths -----

  function CellWidth(row: seq<string>, j: nat): nat {
    if j < |row| then Width(row[j]) else 0
  }

  function ColumnWidth(headers: seq<string>, rows: seq<seq<string>>, j: nat): nat {
    if rows == [] then CellWidth(headers, j)
    else Max(ColumnWidth(headers, rows[..|rows| - 1], j), CellWidth(rows[|rows| - 1], j))
  }

  function Columns(headers: seq<string>, rows: seq<seq<string>>): nat {
    if rows == [] then |headers| else Max(Columns(headers, rows[..|rows| - 1]), |rows[|rows| - 1]|)
  }

  function WidthsOf(headers: seq<string>, rows: seq<seq<string>>): (widths: seq<nat>)
    ensures |widths| == Columns(headers, rows)
  {
    seq(Columns(headers, rows), j requires 0 <= j => ColumnWidth(headers, rows, j))
  }

  lemma {:induction false} NoColumnNoWidth(headers: seq<string>, rows: seq<seq<string>>, j: nat)
    requires j >= Columns(headers, rows)
    ensures ColumnWidth(headers, rows, j) == 0
  {
    if rows != [] {
      NoColumnNoWidth(headers, rows[..|rows| - 1], j);
    }
  }

  /** The inner loop of `widths`, for one row. */
  method WidenForRow(before: seq<nat>, row: seq<string>) returns (widths: seq<nat>)
    ensures |widths| == Max(|before|, |row|)
    ensures forall j :: 0 <= j < |widths| ==> widths[j] == Max(if j < |before| then before[j] else 0, CellWidth(row, j))
  {
    widths := before;
    for index := 0 to |row|
      invariant |widths| == Max(|before|, index)
      invariant forall j :: 0 <= j < |widths| ==>
        widths[j] == Max(if j < |before| then before[j] else 0, if j < index then Width(row[j]) else 0)
    {
      if index == |widths| {
        widths := widths + [0];
      }
      var len := VisibleLen(row[index]);
      widths := widths[index := Max(widths[index], len)];
    }
  }

  /** `widths`. */
  method Widths(headers: seq<string>, rows: seq<seq<string>>) returns (widths: seq<nat>)
    ensures widths == WidthsOf(headers, rows)
  {
    widths := [];
    for i := 0 to |headers|
      invariant |widths| == i && forall j :: 0 <= j < i ==> widths[j] == Width(headers[j])
    {
      var len := VisibleLen(headers[i]);
      widths := widths + [len];
    }
    for i := 0 to |rows|
      invariant widths == WidthsOf(headers, rows[..i])
    {
      ghost var before := widths;
      assert rows[..i + 1][..i] == rows[..i];
      widths := WidenForRow(widths, rows[i]);
      forall j | 0 <= j < |widths|
        ensures widths[j] == ColumnWidth(headers, rows[..i + 1], j)
      {
        if j >= |before| {
          NoColumnNoWidth(headers, rows[..i], j);
        }
      }
    }
    assert rows[..|rows|] == rows;
  }

  /** A column is as wide as its widest cell. */
  lemma {:induction false} ColumnWidthIsMaximum(headers: seq<string>, rows: seq<seq<string>>, j: nat)
    ensures CellWidth(headers, j) <= ColumnWidth(headers, rows, j)
    ensures forall i :: 0 <= i < |rows| ==> CellWidth(rows[i], j) <= ColumnWidth(headers, rows, j)
    ensures || ColumnWidth(headers, rows, j) == CellWidth(headers, j)
            || exists i :: 0 <= i < |rows| && ColumnWidth(headers, rows, j) == CellWidth(rows[i], j)
  {
    if rows != [] {
      var rest := rows[..|rows| - 1];
      ColumnWidthIsMaximum(headers, rest, j);
      assert forall i :: 0 <= i < |rest| ==> rest[i] == rows[i];
    }
  }

  lemma {:induction false} ColumnsCoverRows(headers: seq<string>, rows: seq<seq<string>>)
    ensures |headers| <= Columns(headers, rows)
    ensures forall i :: 0 <= i < |rows| ==> |rows[i]| <= Columns(headers, rows)
  {
    if rows != [] {
      ColumnsCoverRows(headers, rows[..|rows| - 1]);
      assert forall i :: 0 <= i < |rows| - 1 ==> rows[..|rows| - 1][i] == rows[i];
    }
  }

  // ----- Shrinking -----

  function Sum(widths: seq<nat>): nat {
    if widths == [] then 0 else Sum(widths[..|widths| - 1]) + widths[|widths| - 1]
  }

  function Spacing(columns: nat): nat {
    if columns == 0 then 0 else (columns - 1) * 2
  }

  function Total(widths: seq<nat>): nat {
    Sum(widths) + Spacing(|widths|)
  }

  /** A column does not shrink below this. */
  function Floor(headers: seq<string>, i: nat): nat {
    if i < |headers| then Max(Width(headers[i]), LEAST_WIDTH) else LEAST_WIDTH
  }

  predicate Reducible(widths: seq<nat>, headers: seq<string>, i: nat)
    requires i < |widths|
  {
    widths[i] > Floor(headers, i)
  }

  /** The widest reducible column; of equally wide ones, the last. */
  function Widest(widths: seq<nat>, headers: seq<string>): (r: Option<nat>)
    ensures r.Some? ==> r.value < |widths| && Reducible(widths, headers, r.value)
  {
    if widths == [] then None
    else
      var last := |widths| - 1;
      var earlier := Widest(widths[..last], headers);
      if Reducible(widths, headers, last) && (earlier.None? || widths[earlier.value] <= widths[last]) then Some(last)
      else earlier
  }

  lemma {:induction false} WidestIs(widths: seq<nat>, headers: seq<string>)
    ensures match Widest(widths, headers)
            case None => forall j :: 0 <= j < |widths| ==> !Reducible(widths, headers, j)
            case Some(k) =>
              forall j :: 0 <= j < |widths| && Reducible(widths, headers, j) ==>
                widths[j] <= widths[k] && (j > k ==> widths[j] < widths[k])
  {
    if widths != [] {
      var rest := widths[..|widths| - 1];
      WidestIs(rest, headers);
      assert forall j :: 0 <= j < |rest| ==> rest[j] == widths[j] && Reducible(rest, headers, j) == Reducible(widths, headers, j);
    }
  }

  lemma {:induction false} SumAfterShrink(widths: seq<nat>, k: nat)
    requires k < |widths| && widths[k] > 0
    ensures Sum(widths[k := widths[k] - 1]) == Sum(widths) - 1
  {
    var last := |widths| - 1;
    var next := widths[k := widths[k] - 1];
    if k == last {
      assert next[..last] == widths[..last];
    } else {
      SumAfterShrink(widths[..last], k);
      assert next[..last] == widths[..last][k := widths[k] - 1];
    }
  }

  function Shrunk(widths: seq<nat>, headers: seq<string>, maxWidth: nat): (r: seq<nat>)
    ensures |r| == |widths|
    decreases Sum(widths)
  {
    var widest := Widest(widths, headers);
    if Total(widths) <= maxWidth || widest.None? then widths
    else
      SumAfterShrink(widths, widest.value);
      Shrunk(widths[widest.value := widths[widest.value] - 1], headers, maxWidth)
  }

  /** `shrink_widths`, on the slice itself. */
  method ShrinkWidths(widths: array<nat>, headers: seq<string>, maxWidth: nat)
    modifies widths
    ensures widths[..] == Shrunk(old(widths[..]), headers, maxWidth)
  {
    ghost var start := widths[..];
    while Total(widths[..]) > maxWidth
      invariant Shrunk(start, headers, maxWidth) == Shrunk(widths[..], headers, maxWidth)
      decreases Sum(widths[..])
    {
      ghost var before := widths[..];
      var widest := Widest(widths[..], headers);
      if widest.None? {
        break;
      }
      SumAfterShrink(widths[..], widest.value);
      widths[widest.value] := widths[widest.value] - 1;
      assert widths[..] == before[widest.value := before[widest.value] - 1];
    }
  }

  /** A column that can still shrink is at most one wider than a shrunk one, and no wider than a shrunk
      one before it. */
  predicate Even(start: seq<nat>, now: seq<nat>, headers: seq<string>)
    requires |now| == |start|
  {
    forall i, j :: 0 <= i < |now| && 0 <= j < |now| && now[i] < start[i] && Reducible(now, headers, j) ==>
      now[j] <= now[i] + if j < i then 1 else 0
  }

  /** How far shrinking has come: no column grew or fell below its floor, the widths are even, and no
      more was taken than needed. */
  predicate Fair(start: seq<nat>, now: seq<nat>, headers: seq<string>, maxWidth: nat) {
    && |now| == |start|
    && (forall i :: 0 <= i < |now| ==> now[i] <= start[i] && (now[i] < start[i] ==> now[i] >= Floor(headers, i)))
    && Even(start, now, headers)
    && (now == start || Total(now) >= maxWidth)
  }

  lemma ShrinkStepIsEven(start: seq<nat>, now: seq<nat>, headers: seq<string>)
    requires |now| == |start| && Even(start, now, headers) && Widest(now, headers).Some?
    requires forall i :: 0 <= i < |now| ==> now[i] <= start[i]
    ensures var k := Widest(now, headers).value;
            Even(start, now[k := now[k] - 1], headers)
  {
    var k := Widest(now, headers).value;
    var next := now[k := now[k] - 1];
    WidestIs(now, headers);
    hide Widest;
    hide Floor;
    forall i, j | 0 <= i < |next| && 0 <= j < |next| && next[i] < start[i] && Reducible(next, headers, j)
      ensures next[j] <= next[i] + if j < i then 1 else 0
    {
      assert Reducible(now, headers, j);
      if i == k {
        assert now[j] <= now[k] && (j > k ==> now[j] < now[k]);
      } else {
        assert now[j] <= now[i] + if j < i then 1 else 0;
      }
    }
  }

  lemma ShrinkStepIsFair(start: seq<nat>, now: seq<nat>, headers: seq<string>, maxWidth: nat)
    requires Fair(start, now, headers, maxWidth) && Total(now) > maxWidth && Widest(now, headers).Some?
    ensures var k := Widest(now, headers).value;
            Fair(start, now[k := now[k] - 1], headers, maxWidth)
  {
    ShrinkStepIsEven(start, now, headers);
    SumAfterShrink(now, Widest(now, headers).value);
    hide Even;
    hide Widest;
    hide Sum;
  }

  lemma {:induction false} ShrunkFrom(start: seq<nat>, now: seq<nat>, headers: seq<string>, maxWidth: nat)
    requires Fair(start, now, headers, maxWidth)
    ensures var r := Shrunk(now, headers, maxWidth);
      && Fair(start, r, headers, maxWidth)
      && (Total(r) <= maxWidth || forall i :: 0 <= i < |r| ==> !Reducible(r, headers, i))
    decreases Sum(now)
  {
    WidestIs(now, headers);
    hide Fair;
    var widest := Widest(now, headers);
    if Total(now) > maxWidth && widest.Some? {
      ShrinkStepIsFair(start, now, headers, maxWidth);
      SumAfterShrink(now, widest.value);
      hide Widest;
      ShrunkFrom(start, now[widest.value := now[widest.value] - 1], headers, maxWidth);
    }
  }

  /** The outcome of shrinking: the table fits or every column is at its floor, the widths are even, and
      a table that had to shrink and fits is exactly as wide as allowed. */
  lemma ShrinkingIsFair(widths: seq<nat>, headers: seq<string>, maxWidth: nat)
    ensures var r := Shrunk(widths, headers, maxWidth);
      && Fair(widths, r, headers, maxWidth)
      && (Total(r) <= maxWidth || forall i :: 0 <= i < |r| ==> r[i] <= Floor(headers, i))
      && (r != widths && Total(r) <= maxWidth ==> Total(r) == maxWidth)
      && (forall i :: 0 <= i < |r| && r[i] < widths[i] ==> r[i] >= 3 && (i < |headers| ==> r[i] >= Width(headers[i])))
      && (Total(r) <= maxWidth || forall i :: 0 <= i < |r| ==> r[i] <= 3 || (i < |headers| && r[i] <= Width(headers[i])))
  {
    ShrunkFrom(widths, widths, headers, maxWidth);
    var r := Shrunk(widths, headers, maxWidth);
    hide Shrunk;
    hide Total;
    hide Strip;
    if Total(r) > maxWidth {
      forall i | 0 <= i < |r|
        ensures r[i] <= Floor(headers, i)
      {
        assert !Reducible(r, headers, i);
      }
    }
  }

  // ----- Rows -----

  datatype Style = Plain | Label(theme: Theme)

  function Painted(style: Style, value: string): string {
    match style
    case Plain => value
    case Label(theme) => Paint(theme, LABEL_CODE, value)
  }

  function Repeat(c: char, n: nat): string {
    seq(n, _ => c)
  }

  function Cell(row: seq<string>, width: nat, i: nat, style: Style): string {
    var value := Truncate(if i < |row| then row[i] else "", width);
    Painted(style, value) + Repeat(' ', if Width(value) <= width then width - Width(value) else 0)
  }

  /** What separates the `n`th cell from the one before it. */
  function Gap(n: nat): string {
    if n <= 1 then "" else "  "
  }

  /** The first `n` cells of a line. */
  function LineUpTo(row: seq<string>, widths: seq<nat>, n: nat, style: Style): string
    requires n <= |widths|
  {
    if n == 0 then ""
    else LineUpTo(row, widths, n - 1, style) + Gap(n) + Cell(row, widths[n - 1], n - 1, style)
  }

  function Line(row: seq<string>, widths: seq<nat>, style: Style): string {
    LineUpTo(row, widths, |widths|, style)
  }

  /** One cell of `push_row`. */
  method PaddedCell(row: seq<string>, width: nat, i: nat, style: Style) returns (cell: string)
    ensures cell == Cell(row, width, i, style)
  {
    var value := if i < |row| then row[i] else "";
    var len := VisibleLen(value);
    if len > width {
      value := Truncate(value, width);
      len := VisibleLen(value);
    }
    var padding := if len <= width then width - len else 0;
    cell := Painted(style, value) + Repeat(' ', padding);
  }

  /** `push_row`. */
  method PushRow(output: string, row: seq<string>, widths: seq<nat>, style: Style) returns (extended: string)
    ensures extended == output + Line(row, widths, style) + "\n"
  {
    hide Cell;
    var line := "";
    for index := 0 to |widths|
      invariant line == LineUpTo(row, widths, index, style)
    {
      if index > 0 {
        line := line + "  ";
      }
      assert line == LineUpTo(row, widths, index, style) + Gap(index + 1);
      var cell := PaddedCell(row, widths[index], index, style);
      line := line + cell;
    }
    extended := output + line + "\n";
  }

  lemma Spaces(n: nat)
    ensures WellFormed(Repeat(' ', n)) && Width(Repeat(' ', n)) == n
  {
    PlainText(Repeat(' ', n));
  }

  lemma PaintedWidth(style: Style, value: string)
    requires WellFormed(value)
    ensures WellFormed(Painted(style, value)) && Width(Painted(style, value)) == Width(value)
  {
    if style.Label? {
      PaintWidth(style.theme, LABEL_CODE, value);
    }
  }

  /** A cell takes up exactly its column, provided it fits or the column has a character to spare. */
  lemma CellWidthIsColumnWidth(row: seq<string>, width: nat, i: nat, style: Style)
    requires i < |row| ==> WellFormed(row[i]) && (Width(row[i]) <= width || width > 0)
    ensures WellFormed(Cell(row, width, i, style)) && Width(Cell(row, width, i, style)) == width
  {
    var given := if i < |row| then row[i] else "";
    var value := Truncate(given, width);
    TruncateFits(given, width);
    assert Width("") == 0;
    hide Truncate;
    hide Strip;
    PaintedWidth(style, value);
    Spaces(width - Width(value));
    WidthAdds(Painted(style, value), Repeat(' ', width - Width(value)));
  }

  /** What shows of text in a column: all of it, or its first characters and an ellipsis, and spaces up to the
      column's width. */
  function Fitted(text: string, width: nat): string {
    if |text| <= width then text + Repeat(' ', width - |text|)
    else text[..if width == 0 then 0 else width - 1] + ['\U{2026}']
  }

  /** A cell shows its own text and nothing else, painted or not; a missing cell is blank. */
  lemma CellShows(row: seq<string>, width: nat, i: nat, style: Style)
    requires i < |row| ==> WellFormed(row[i])
    ensures Strip(Cell(row, width, i, style)) == Fitted(if i < |row| then Strip(row[i]) else "", width)
    ensures WellFormed(Cell(row, width, i, style))
  {
    var given := if i < |row| then row[i] else "";
    var value := Truncate(given, width);
    TruncateShows(given, width);
    TruncateFits(given, width);
    assert Strip("") == "" && WellFormed("");
    var padding := if Width(value) <= width then width - Width(value) else 0;
    Spaces(padding);
    PlainText(Repeat(' ', padding));
    PaintedShows(style, value);
    hide Shown;
    hide Truncate;
    ShownConcat(Painted(style, value), Repeat(' ', padding), Ground);
  }

  lemma PaintedShows(style: Style, value: string)
    requires WellFormed(value)
    ensures Strip(Painted(style, value)) == Strip(value) && WellFormed(Painted(style, value))
  {
    if style.Label? {
      PaintWidth(style.theme, LABEL_CODE, value);
    }
  }

  /** The first `n` columns of a line: two spaces between the cells. */
  function Shows(row: seq<string>, widths: seq<nat>, n: nat): string
    requires n <= |widths|
  {
    if n == 0 then ""
    else Shows(row, widths, n - 1) + (if n == 1 then "" else "  ")
         + Fitted(if n - 1 < |row| then Strip(row[n - 1]) else "", widths[n - 1])
  }

  /** A line shows the texts of its row, column by column. */
  lemma {:induction false} LineShows(row: seq<string>, widths: seq<nat>, n: nat, style: Style)
    requires n <= |widths| && forall i :: 0 <= i < |row| ==> WellFormed(row[i])
    ensures Strip(LineUpTo(row, widths, n, style)) == Shows(row, widths, n) && WellFormed(LineUpTo(row, widths, n, style))
  {
    hide *;
    if n == 0 {
      NoCellsShow(row, widths, style);
    } else {
      LineShows(row, widths, n - 1, style);
      CellShows(row, widths[n - 1], n - 1, style);
      OneMoreCell(row, widths, n, style);
      GapShows(n);
      StripAddsTwice(LineUpTo(row, widths, n - 1, style), Gap(n), Cell(row, widths[n - 1], n - 1, style));
    }
  }

  lemma NoCellsShow(row: seq<string>, widths: seq<nat>, style: Style)
    ensures Strip(LineUpTo(row, widths, 0, style)) == Shows(row, widths, 0) && WellFormed(LineUpTo(row, widths, 0, style))
  {
  }

  lemma StripAddsTwice(a: string, b: string, c: string)
    requires WellFormed(a) && WellFormed(b) && WellFormed(c)
    ensures Strip(a + b + c) == Strip(a) + Strip(b) + Strip(c) && WellFormed(a + b + c)
  {
    hide *;
    StripAdds(a, b);
    StripAdds(a + b, c);
  }

  lemma OneMoreCell(row: seq<string>, widths: seq<nat>, n: nat, style: Style)
    requires 0 < n <= |widths|
    ensures LineUpTo(row, widths, n, style)
            == LineUpTo(row, widths, n - 1, style) + Gap(n) + Cell(row, widths[n - 1], n - 1, style)
    ensures Shows(row, widths, n)
            == Shows(row, widths, n - 1) + (if n == 1 then "" else "  ")
               + Fitted(if n - 1 < |row| then Strip(row[n - 1]) else "", widths[n - 1])
  {
    hide Cell;
    hide Gap;
    hide Fitted;
    hide Strip;
  }

  lemma GapShows(n: nat)
    requires n > 0
    ensures Strip(Gap(n)) == (if n == 1 then "" else "  ") && WellFormed(Gap(n))
  {
    PlainText(Gap(n));
  }

  predicate FitsRow(row: seq<string>, widths: seq<nat>) {
    forall i :: 0 <= i < |row| && i < |widths| ==> WellFormed(row[i]) && (Width(row[i]) <= widths[i] || widths[i] > 0)
  }

  lemma GapWidth(n: nat)
    ensures WellFormed(Gap(n)) && Width(Gap(n)) == if n == 0 then 0 else Spacing(n) - Spacing(n - 1)
  {
    PlainText(Gap(n));
  }

  lemma CellFits(row: seq<string>, widths: seq<nat>, i: nat, style: Style)
    requires i < |widths| && FitsRow(row, widths)
    ensures WellFormed(Cell(row, widths[i], i, style)) && Width(Cell(row, widths[i], i, style)) == widths[i]
  {
    CellWidthIsColumnWidth(row, widths[i], i, style);
  }

  lemma WidthsAdd(a: string, b: string, c: string)
    requires WellFormed(a) && WellFormed(b) && WellFormed(c)
    ensures WellFormed(a + b + c) && Width(a + b + c) == Width(a) + Width(b) + Width(c)
  {
    hide Width;
    hide WellFormed;
    WidthAdds(a, b);
    WidthAdds(a + b, c);
  }

  lemma SumOfPrefix(widths: seq<nat>, n: nat)
    requires 0 < n <= |widths|
    ensures Sum(widths[..n]) == Sum(widths[..n - 1]) + widths[n - 1]
  {
    assert widths[..n][..n - 1] == widths[..n - 1];
  }

  /** The first `n` cells of a line, with the gaps between them, are as wide as their columns say. */
  lemma {:induction false} LineWidth(row: seq<string>, widths: seq<nat>, n: nat, style: Style)
    requires n <= |widths| && FitsRow(row, widths)
    ensures WellFormed(LineUpTo(row, widths, n, style))
    ensures Width(LineUpTo(row, widths, n, style)) == Sum(widths[..n]) + Spacing(n)
  {
    hide Width;
    hide WellFormed;
    hide Cell;
    hide FitsRow;
    hide Sum;
    if n == 0 {
      NoCells(row, widths, style);
    } else {
      LineWidth(row, widths, n - 1, style);
      CellFits(row, widths, n - 1, style);
      GapWidth(n);
      hide Gap;
      SumOfPrefix(widths, n);
      WidthsAdd(LineUpTo(row, widths, n - 1, style), Gap(n), Cell(row, widths[n - 1], n - 1, style));
    }
  }

  lemma NoCells(row: seq<string>, widths: seq<nat>, style: Style)
    ensures WellFormed(LineUpTo(row, widths, 0, style))
    ensures Width(LineUpTo(row, widths, 0, style)) == Sum(widths[..0]) == 0
  {
  }

  // ----- The whole table -----

  function Rule(widths: seq<nat>): (rule: seq<string>)
    ensures |rule| == |widths|
  {
    seq(|widths|, i requires 0 <= i < |widths| => Repeat(RULE, widths[i]))
  }

  function FinalWidths(headers: seq<string>, rows: seq<seq<string>>, maxWidth: nat): seq<nat> {
    Shrunk(WidthsOf(headers, rows), headers, maxWidth)
  }

  /** The lines of the table: headers, rule, rows. */
  function TableLines(headers: seq<string>, rows: seq<seq<string>>, theme: Theme, maxWidth: nat): (lines: seq<string>)
    ensures |lines| == |rows| + 2
  {
    var widths := FinalWidths(headers, rows, maxWidth);
    [Line(headers, widths, Label(theme)), Line(Rule(widths), widths, Label(theme))]
    + seq(|rows|, i requires 0 <= i < |rows| => Line(rows[i], widths, Plain))
  }

  function Joined(lines: seq<string>): string {
    if lines == [] then "" else Joined(lines[..|lines| - 1]) + lines[|lines| - 1] + "\n"
  }

  /** White space in the sense of the Unicode property. */
  predicate WhiteSpace(c: char) {
    || '\U{9}' <= c <= '\U{D}' || c == ' ' || c == '\U{85}' || c == '\U{A0}' || c == '\U{1680}'
    || '\U{2000}' <= c <= '\U{200A}' || c == '\U{2028}' || c == '\U{2029}' || c == '\U{202F}' || c == '\U{205F}'
    || c == '\U{3000}'
  }

  function TrimEnd(s: string): string {
    if s != "" && WhiteSpace(s[|s| - 1]) then TrimEnd(s[..|s| - 1]) else s
  }

  /** The 25 code points of the property. */
  lemma WhiteSpaceIs(c: char)
    ensures WhiteSpace(c) <==>
            c as int in {9, 10, 11, 12, 13, 32, 133, 160, 5760, 8192, 8193, 8194, 8195, 8196, 8197, 8198, 8199, 8200,
                         8201, 8202, 8232, 8233, 8239, 8287, 12288}
  {
  }

  /** Trimming takes away white space at the very end and nothing else. */
  lemma {:induction false} TrimmedIsWhiteSpace(s: string)
    ensures TrimEnd(s) <= s && forall i :: |TrimEnd(s)| <= i < |s| ==> WhiteSpace(s[i])
    ensures TrimEnd(s) != "" ==> !WhiteSpace(TrimEnd(s)[|TrimEnd(s)| - 1])
  {
    if s != "" && WhiteSpace(s[|s| - 1]) {
      TrimmedIsWhiteSpace(s[..|s| - 1]);
      assert forall i :: 0 <= i < |s| - 1 ==> s[..|s| - 1][i] == s[i];
    }
  }

  /** `render_with_width`. */
  method RenderWithWidth(headers: seq<string>, rows: seq<seq<string>>, theme: Theme,
                         maxWidth: nat) returns (output: string)
    ensures output == if headers == [] then "" else TrimEnd(Joined(TableLines(headers, rows, theme, maxWidth)))
  {
    if headers == [] {
      return "";
    }
    hide Line;
    hide Joined;
    hide TrimEnd;
    hide WidthsOf;
    hide Shrunk;
    var measured := Widths(headers, rows);
    var slice := new nat[|measured|](i requires 0 <= i < |measured| => measured[i]);
    assert slice[..] == measured;
    ShrinkWidths(slice, headers, maxWidth);
    var widths := slice[..];
    ghost var lines := TableLines(headers, rows, theme, maxWidth);
    NothingJoined(lines);
    OneMoreLine(lines, 0);
    output := PushRow("", headers, widths, Label(theme));
    OneMoreLine(lines, 1);
    output := PushRow(output, Rule(widths), widths, Label(theme));
    for i := 0 to |rows|
      invariant output == Joined(lines[..i + 2])
    {
      OneMoreLine(lines, i + 2);
      output := PushRow(output, rows[i], widths, Plain);
    }
    assert lines[..|rows| + 2] == lines;
    output := TrimEnd(output);
  }

  lemma NothingJoined(lines: seq<string>)
    ensures Joined(lines[..0]) == ""
  {
  }

  lemma OneMoreLine(lines: seq<string>, n: nat)
    requires n < |lines|
    ensures Joined(lines[..n + 1]) == Joined(lines[..n]) + lines[n] + "\n"
  {
    assert lines[..n + 1][..n] == lines[..n];
  }

  /** Every text in the table is well formed. */
  predicate WellFormedTexts(row: seq<string>) {
    forall i :: 0 <= i < |row| ==> WellFormed(row[i])
  }

  lemma ShrunkColumnHasRoom(headers: seq<string>, rows: seq<seq<string>>, maxWidth: nat, row: seq<string>)
    requires WellFormedTexts(row)
    requires forall j :: 0 <= j < |row| && j < Columns(headers, rows) ==> Width(row[j]) <= ColumnWidth(headers, rows, j)
    ensures FitsRow(row, FinalWidths(headers, rows, maxWidth))
  {
    ShrinkingIsFair(WidthsOf(headers, rows), headers, maxWidth);
    hide Shrunk;
    hide WellFormed;
    hide Width;
    hide ColumnWidth;
  }

  lemma LineIsAligned(headers: seq<string>, rows: seq<seq<string>>, theme: Theme, maxWidth: nat, k: nat)
    requires WellFormedTexts(headers) && k < |rows| + 2 && (k >= 2 ==> WellFormedTexts(rows[k - 2]))
    ensures var line := TableLines(headers, rows, theme, maxWidth)[k];
            WellFormed(line) && Width(line) == Total(FinalWidths(headers, rows, maxWidth))
  {
    hide FinalWidths;
    hide LineUpTo;
    hide WellFormed;
    hide Width;
    hide FitsRow;
    hide Sum;
    var widths := FinalWidths(headers, rows, maxWidth);
    assert widths[..|widths|] == widths;
    if k == 0 {
      HeadersHaveRoom(headers, rows, maxWidth);
      LineWidth(headers, widths, |widths|, Label(theme));
    } else if k == 1 {
      RuleFits(widths);
      LineWidth(Rule(widths), widths, |widths|, Label(theme));
    } else {
      RowHasRoom(headers, rows, maxWidth, k - 2);
      LineWidth(rows[k - 2], widths, |widths|, Plain);
    }
  }

  /** Every line is equally wide, and no wider than allowed unless all columns are at their floor. */
  lemma LinesAreAligned(headers: seq<string>, rows: seq<seq<string>>, theme: Theme, maxWidth: nat)
    requires WellFormedTexts(headers) && forall i :: 0 <= i < |rows| ==> WellFormedTexts(rows[i])
    ensures var lines, widths := TableLines(headers, rows, theme, maxWidth), FinalWidths(headers, rows, maxWidth);
      && (forall k :: 0 <= k < |lines| ==> WellFormed(lines[k]) && Width(lines[k]) == Total(widths))
      && (Total(widths) <= maxWidth || forall i :: 0 <= i < |widths| ==> widths[i] <= Floor(headers, i))
  {
    ShrinkingIsFair(WidthsOf(headers, rows), headers, maxWidth);
    var lines := TableLines(headers, rows, theme, maxWidth);
    hide TableLines;
    hide Shrunk;
    hide WellFormed;
    hide Width;
    hide WellFormedTexts;
    forall k | 0 <= k < |lines|
      ensures WellFormed(lines[k]) && Width(lines[k]) == Total(FinalWidths(headers, rows, maxWidth))
    {
      LineIsAligned(headers, rows, theme, maxWidth, k);
    }
  }

  lemma HeadersHaveRoom(headers: seq<string>, rows: seq<seq<string>>, maxWidth: nat)
    requires WellFormedTexts(headers)
    ensures FitsRow(headers, FinalWidths(headers, rows, maxWidth))
  {
    forall j | 0 <= j < |headers|
      ensures Width(headers[j]) <= ColumnWidth(headers, rows, j)
    {
      ColumnWidthIsMaximum(headers, rows, j);
    }
    ShrunkColumnHasRoom(headers, rows, maxWidth, headers);
  }

  lemma RowHasRoom(headers: seq<string>, rows: seq<seq<string>>, maxWidth: nat, i: nat)
    requires i < |rows| && WellFormedTexts(rows[i])
    ensures FitsRow(rows[i], FinalWidths(headers, rows, maxWidth))
  {
    forall j | 0 <= j < |rows[i]|
      ensures Width(rows[i][j]) <= ColumnWidth(headers, rows, j)
    {
      ColumnWidthIsMaximum(headers, rows, j);
      assert CellWidth(rows[i], j) <= ColumnWidth(headers, rows, j);
    }
    ShrunkColumnHasRoom(headers, rows, maxWidth, rows[i]);
  }

  lemma RuleFits(widths: seq<nat>)
    ensures FitsRow(Rule(widths), widths)
  {
    forall i | 0 <= i < |widths|
      ensures WellFormed(Rule(widths)[i]) && Width(Rule(widths)[i]) == widths[i]
    {
      PlainText(Repeat(RULE, widths[i]));
    }
  }

  lemma RuleShows(widths: seq<nat>)
    ensures Rule(widths) == seq(|widths|, i requires 0 <= i < |widths| => seq(widths[i], _ => '\U{2500}'))
    ensures WellFormedTexts(Rule(widths))
  {
    forall i | 0 <= i < |widths|
      ensures WellFormed(Rule(widths)[i])
    {
      PlainText(Repeat(RULE, widths[i]));
    }
  }

  /** What the table shows, line by line: its headers, a rule of U+2500 under each column, and its rows. */
  lemma TableShows(headers: seq<string>, rows: seq<seq<string>>, theme: Theme, maxWidth: nat)
    requires WellFormedTexts(headers) && forall i :: 0 <= i < |rows| ==> WellFormedTexts(rows[i])
    ensures var lines, widths := TableLines(headers, rows, theme, maxWidth), FinalWidths(headers, rows, maxWidth);
      && Strip(lines[0]) == Shows(headers, widths, |widths|)
      && Strip(lines[1]) == Shows(seq(|widths|, i requires 0 <= i < |widths| => seq(widths[i], _ => '\U{2500}')),
                                  widths, |widths|)
      && forall i :: 0 <= i < |rows| ==> Strip(lines[i + 2]) == Shows(rows[i], widths, |widths|)
  {
    hide Shrunk;
    hide WellFormed;
    hide Strip;
    hide LineUpTo;
    hide Shows;
    var widths := FinalWidths(headers, rows, maxWidth);
    hide FinalWidths;
    LineShows(headers, widths, |widths|, Label(theme));
    RuleShows(widths);
    LineShows(Rule(widths), widths, |widths|, Label(theme));
    forall i | 0 <= i < |rows|
      ensures Strip(Line(rows[i], widths, Plain)) == Shows(rows[i], widths, |widths|)
    {
      LineShows(rows[i], widths, |widths|, Plain);
    }
  }
}
