/** The dashboard totals rebuilt from account summaries (crates/usage-core/src/model.rs): one day per
    date, with saturating 64-bit token counts, and the totals over all days. */
module Dashboard {
  import opened Numbers
  import opened Sequences
  import opened Wrappers

  datatype Date = Date(dayNumber: int)

  datatype Point = Point(date: Date, tokens: nat, cost: Option<real>, priced: nat, unpriced: nat)

  /** The days of one account's activity and cost, where it has them. */
  datatype Account = Account(activity: Option<seq<Point>>, cost: Option<seq<Point>>)

  datatype Day = Day(tokens: nat, cost: Option<real>, priced: nat, unpriced: nat)

  const EMPTY_DAY := Day(0, None, 0, 0)

  /** What one point adds to its day; points are also the unit of account of the totals. */
  function Added(day: Day, p: Point): Day {
    Day(SaturatingAdd(day.tokens, p.tokens),
        if p.cost.Some? then Some((if day.cost.Some? then day.cost.value else 0.0) + p.cost.value) else day.cost,
        SaturatingAdd(day.priced, p.priced), SaturatingAdd(day.unpriced, p.unpriced))
  }

  type Days = map<Date, Day>

  function Entered(days: Days, p: Point): Days {
    days[p.date := Added(if p.date in days then days[p.date] else EMPTY_DAY, p)]
  }

  /** An activity point counts tokens only. */
  function ActivityEntry(p: Point): Point {
    Point(p.date, p.tokens, None, 0, 0)
  }

  /** A cost point counts tokens only for an account without activity. */
  function CostEntry(p: Point, hasActivity: bool): Point {
    p.(tokens := if hasActivity then 0 else p.tokens)
  }

  function ActivityEntries(points: seq<Point>): seq<Point> {
    seq(|points|, i requires 0 <= i < |points| => ActivityEntry(points[i]))
  }

  function CostEntries(points: seq<Point>, hasActivity: bool): seq<Point> {
    seq(|points|, i requires 0 <= i < |points| => CostEntry(points[i], hasActivity))
  }

  /** Everything one account enters, in order. */
  function EntriesOf(a: Account): seq<Point> {
    (if a.activity.Some? then ActivityEntries(a.activity.value) else [])
    + (if a.cost.Some? then CostEntries(a.cost.value, a.activity.Some?) else [])
  }

  function Entries(accounts: seq<Account>): seq<Point> {
    if accounts == [] then [] else Entries(accounts[..|accounts| - 1]) + EntriesOf(accounts[|accounts| - 1])
  }

  // ----- Exact sums -----

  datatype Field = Tokens | Priced | Unpriced

  function Amount(p: Point, f: Field): nat {
    match f
    case Tokens => p.tokens
    case Priced => p.priced
    case Unpriced => p.unpriced
  }

  /** The unbounded sum over the entries of one date. */
  function SumAt(entries: seq<Point>, date: Date, f: Field): nat {
    if entries == [] then 0
    else
      var p := entries[|entries| - 1];
      SumAt(entries[..|entries| - 1], date, f) + if p.date == date then Amount(p, f) else 0
  }

  /** The unbounded sum over the entries of the given dates. */
  function SumOver(entries: seq<Point>, dates: set<Date>, f: Field): nat {
    if entries == [] then 0
    else
      var p := entries[|entries| - 1];
      SumOver(entries[..|entries| - 1], dates, f) + if p.date in dates then Amount(p, f) else 0
  }

  /** The sum of the costs of one date; none when no entry has a cost. */
  function CostAt(entries: seq<Point>, date: Date): Option<real> {
    if entries == [] then None
    else
      var earlier, p := CostAt(entries[..|entries| - 1], date), entries[|entries| - 1];
      if p.date == date && p.cost.Some? then
        Some((if earlier.Some? then earlier.value else 0.0) + p.cost.value)
      else earlier
  }

  predicate HasDate(entries: seq<Point>, date: Date) {
    exists i :: 0 <= i < |entries| && entries[i].date == date
  }

  function DayOf(entries: seq<Point>, date: Date): Day {
    Day(Saturated(SumAt(entries, date, Tokens)), CostAt(entries, date),
        Saturated(SumAt(entries, date, Priced)), Saturated(SumAt(entries, date, Unpriced)))
  }

  /** One day per date that occurs, each holding the exact sums, clamped once. */
  ghost predicate Represents(days: Days, entries: seq<Point>) {
    forall date :: (date in days <==> HasDate(entries, date)) && (date in days ==> days[date] == DayOf(entries, date))
  }

  // ----- The loops -----

  lemma OneMore(entries: seq<Point>, p: Point, date: Date)
    ensures forall f :: SumAt(entries + [p], date, f) == SumAt(entries, date, f) + if p.date == date then Amount(p, f) else 0
    ensures CostAt(entries + [p], date)
            == if p.date == date && p.cost.Some?
               then Some((if CostAt(entries, date).Some? then CostAt(entries, date).value else 0.0) + p.cost.value)
               else CostAt(entries, date)
    ensures HasDate(entries + [p], date) <==> HasDate(entries, date) || p.date == date
  {
    var more := entries + [p];
    assert more[..|entries|] == entries;
    if HasDate(entries, date) {
      var i :| 0 <= i < |entries| && entries[i].date == date;
      assert more[i].date == date;
    }
    if p.date == date {
      assert more[|entries|].date == date;
    }
  }

  lemma {:induction false} NothingAt(entries: seq<Point>, date: Date)
    requires !HasDate(entries, date)
    ensures DayOf(entries, date) == EMPTY_DAY
  {
    if entries != [] {
      var rest, last := entries[..|entries| - 1], entries[|entries| - 1];
      assert entries == rest + [last];
      OneMore(rest, last, date);
      NothingAt(rest, date);
      assert SumAt(entries, date, Tokens) == 0 && SumAt(entries, date, Priced) == 0 && SumAt(entries, date, Unpriced) == 0;
    }
  }

  lemma ClampOnce(sum: nat, more: nat)
    ensures SaturatingAdd(Saturated(sum), more) == Saturated(sum + more)
  {
  }

  /** Entering a point saturates step by step; the result is the exact sum clamped once. */
  lemma EnteredRepresents(days: Days, entries: seq<Point>, p: Point)
    requires Represents(days, entries)
    ensures Represents(Entered(days, p), entries + [p])
  {
    var next := Entered(days, p);
    forall date
      ensures date in next <==> HasDate(entries + [p], date)
      ensures date in next ==> next[date] == DayOf(entries + [p], date)
    {
      OneMore(entries, p, date);
      if date == p.date {
        if date !in days {
          NothingAt(entries, date);
        }
        ClampOnce(SumAt(entries, date, Tokens), p.tokens);
        ClampOnce(SumAt(entries, date, Priced), p.priced);
        ClampOnce(SumAt(entries, date, Unpriced), p.unpriced);
        assert SumAt(entries + [p], date, Tokens) == SumAt(entries, date, Tokens) + p.tokens;
        assert SumAt(entries + [p], date, Priced) == SumAt(entries, date, Priced) + p.priced;
        assert SumAt(entries + [p], date, Unpriced) == SumAt(entries, date, Unpriced) + p.unpriced;
      } else {
        assert DayOf(entries + [p], date) == DayOf(entries, date) by {
          assert SumAt(entries + [p], date, Tokens) == SumAt(entries, date, Tokens);
          assert SumAt(entries + [p], date, Priced) == SumAt(entries, date, Priced);
          assert SumAt(entries + [p], date, Unpriced) == SumAt(entries, date, Unpriced);
        }
      }
    }
  }

  method EnterAll(before: Days, points: seq<Point>, ghost entries: seq<Point>) returns (days: Days)
    requires Represents(before, entries)
    ensures Represents(days, entries + points)
  {
    days := before;
    assert entries + points[..0] == entries;
    for i := 0 to |points|
      invariant Represents(days, entries + points[..i])
    {
      EnteredRepresents(days, entries + points[..i], points[i]);
      assert entries + points[..i + 1] == entries + points[..i] + [points[i]];
      days := Entered(days, points[i]);
    }
    assert points[..|points|] == points;
  }

  /** One account: its activity first, then its cost. */
  method EnterAccount(before: Days, account: Account, ghost entries: seq<Point>) returns (days: Days)
    requires Represents(before, entries)
    ensures Represents(days, entries + EntriesOf(account))
  {
    hide Represents;
    days := before;
    ghost var entered := entries;
    if account.activity.Some? {
      days := EnterAll(days, ActivityEntries(account.activity.value), entered);
      entered := entered + ActivityEntries(account.activity.value);
    }
    if account.cost.Some? {
      days := EnterAll(days, CostEntries(account.cost.value, account.activity.Some?), entered);
      entered := entered + CostEntries(account.cost.value, account.activity.Some?);
    }
    assert entered == entries + EntriesOf(account);
  }

  /** The loop over accounts. */
  method DaysOf(accounts: seq<Account>) returns (days: Days)
    ensures Represents(days, Entries(accounts))
  {
    days := map[];
    for i := 0 to |accounts|
      invariant Represents(days, Entries(accounts[..i]))
    {
      days := EnterAccount(days, accounts[i], Entries(accounts[..i]));
      assert accounts[..i + 1][..i] == accounts[..i];
    }
    assert accounts[..|accounts|] == accounts;
  }

  lemma {:induction false} SumSplits(entries: seq<Point>, dates: set<Date>, date: Date, f: Field)
    requires date !in dates
    ensures SumOver(entries, dates + {date}, f) == SumOver(entries, dates, f) + SumAt(entries, date, f)
  {
    if entries != [] {
      SumSplits(entries[..|entries| - 1], dates, date, f);
    }
  }

  lemma {:induction false} SumOfNoDates(entries: seq<Point>, f: Field)
    ensures SumOver(entries, {}, f) == 0
  {
    if entries != [] {
      SumOfNoDates(entries[..|entries| - 1], f);
    }
  }

  /** The fold over the days: saturating twice, per day and over the days, is clamping the exact sum. */
  method TotalOf(days: Days, f: Field, ghost entries: seq<Point>) returns (total: nat)
    requires Represents(days, entries) && !f.Tokens?
    ensures total == Saturated(SumOver(entries, days.Keys, f))
  {
    total := 0;
    var rest := days.Keys;
    SumOfNoDates(entries, f);
    assert days.Keys - rest == {};
    while rest != {}
      invariant rest <= days.Keys && total == Saturated(SumOver(entries, days.Keys - rest, f))
      decreases |rest|
    {
      var date :| date in rest;
      SumSplits(entries, days.Keys - rest, date, f);
      assert days.Keys - (rest - {date}) == (days.Keys - rest) + {date};
      var amount := if f.Priced? then days[date].priced else days[date].unpriced;
      assert amount == Saturated(SumAt(entries, date, f));
      total := SaturatingAdd(total, amount);
      rest := rest - {date};
    }
    assert days.Keys - rest == days.Keys;
  }

  // ----- Conservation -----

  /** The unbounded sum over all entries. */
  function Sum(entries: seq<Point>, f: Field): nat {
    if entries == [] then 0 else Sum(entries[..|entries| - 1], f) + Amount(entries[|entries| - 1], f)
  }

  lemma {:induction false} NothingIsLost(entries: seq<Point>, dates: set<Date>, f: Field)
    requires forall i :: 0 <= i < |entries| ==> entries[i].date in dates
    ensures SumOver(entries, dates, f) == Sum(entries, f)
  {
    if entries != [] {
      NothingIsLost(entries[..|entries| - 1], dates, f);
    }
  }

  /** `aggregate_usage_dashboard`: the totals are the sums of everything entered, clamped once: no point
      is counted twice and none is lost, however the saturation falls. */
  method Aggregate(accounts: seq<Account>) returns (days: Days, priced: nat, unpriced: nat)
    ensures Represents(days, Entries(accounts))
    ensures priced == Saturated(Sum(Entries(accounts), Priced)) && unpriced == Saturated(Sum(Entries(accounts), Unpriced))
    ensures priced == Saturated(CountedInAll(accounts, Priced)) && unpriced == Saturated(CountedInAll(accounts, Unpriced))
  {
    days := DaysOf(accounts);
    ghost var entries := Entries(accounts);
    forall i | 0 <= i < |entries|
      ensures entries[i].date in days.Keys
    {
      assert HasDate(entries, entries[i].date);
    }
    priced := TotalOf(days, Priced, entries);
    unpriced := TotalOf(days, Unpriced, entries);
    NothingIsLost(entries, days.Keys, Priced);
    NothingIsLost(entries, days.Keys, Unpriced);
    AccountsCount(accounts, Date(0), Priced);
    AccountsCount(accounts, Date(0), Unpriced);
  }

  // ----- Order -----

  lemma {:induction false} EntriesSplit(a: seq<Account>, b: seq<Account>)
    ensures Entries(a + b) == Entries(a) + Entries(b)
  {
    hide EntriesOf;
    if b == [] {
      assert a + b == a;
    } else {
      var rest, last := b[..|b| - 1], b[|b| - 1];
      EntriesSplit(a, rest);
      assert (a + b)[..|a + b| - 1] == a + rest;
      Associative(Entries(a), Entries(rest), EntriesOf(last));
    }
  }

  lemma {:induction false} SumAtSplits(a: seq<Point>, b: seq<Point>, date: Date, f: Field)
    ensures SumAt(a + b, date, f) == SumAt(a, date, f) + SumAt(b, date, f)
    ensures Sum(a + b, f) == Sum(a, f) + Sum(b, f)
  {
    if b == [] {
      assert a + b == a;
    } else {
      SumAtSplits(a, b[..|b| - 1], date, f);
      assert (a + b)[..|a + b| - 1] == a + b[..|b| - 1];
    }
  }

  function PlusCost(a: Option<real>, b: Option<real>): Option<real> {
    if a.None? then b else if b.None? then a else Some(a.value + b.value)
  }

  lemma {:induction false} CostAtSplits(a: seq<Point>, b: seq<Point>, date: Date)
    ensures CostAt(a + b, date) == PlusCost(CostAt(a, date), CostAt(b, date))
  {
    if b == [] {
      assert a + b == a;
    } else {
      CostAtSplits(a, b[..|b| - 1], date);
      assert (a + b)[..|a + b| - 1] == a + b[..|b| - 1];
    }
  }

  lemma SumsCommute(x: seq<Point>, y: seq<Point>, z: seq<Point>, date: Date, f: Field)
    ensures SumAt(x + y + z, date, f) == SumAt(x + z + y, date, f) && Sum(x + y + z, f) == Sum(x + z + y, f)
  {
    SumAtSplits(x + y, z, date, f);
    SumAtSplits(x, y, date, f);
    SumAtSplits(x + z, y, date, f);
    SumAtSplits(x, z, date, f);
    hide SumAt;
    hide Sum;
  }

  lemma CostsCommute(x: seq<Point>, y: seq<Point>, z: seq<Point>, date: Date)
    ensures CostAt(x + y + z, date) == CostAt(x + z + y, date)
  {
    CostAtSplits(x + y, z, date);
    CostAtSplits(x, y, date);
    CostAtSplits(x + z, y, date);
    CostAtSplits(x, z, date);
    hide CostAt;
  }

  /** Two neighbouring groups of accounts can be exchanged. */
  lemma GroupsCommute(a: seq<Account>, b: seq<Account>, c: seq<Account>, date: Date, f: Field)
    ensures DayOf(Entries(a + b + c), date) == DayOf(Entries(a + c + b), date)
    ensures Sum(Entries(a + b + c), f) == Sum(Entries(a + c + b), f)
  {
    EntriesSplit(a + b, c);
    EntriesSplit(a, b);
    EntriesSplit(a + c, b);
    EntriesSplit(a, c);
    var x, y, z := Entries(a), Entries(b), Entries(c);
    hide Entries;
    SumsCommute(x, y, z, date, f);
    SumsCommute(x, y, z, date, Tokens);
    SumsCommute(x, y, z, date, Priced);
    SumsCommute(x, y, z, date, Unpriced);
    CostsCommute(x, y, z, date);
    hide SumAt;
    hide CostAt;
    hide Sum;
  }

  /** A permutation of the accounts changes no exact sum. */
  lemma {:induction false} PermutationKeepsSums(a: seq<Account>, b: seq<Account>, date: Date, f: Field)
    requires multiset(a) == multiset(b)
    ensures DayOf(Entries(a), date) == DayOf(Entries(b), date) && Sum(Entries(a), f) == Sum(Entries(b), f)
    ensures HasDate(Entries(a), date) ==> HasDate(Entries(b), date)
    decreases |a|
  {
    if a == [] {
      assert |multiset(a)| == |multiset(b)|;
      assert b == [];
    } else {
      var rest, last := a[..|a| - 1], a[|a| - 1];
      assert a == rest + [last];
      assert last in multiset(b);
      var k :| 0 <= k < |b| && b[k] == last;
      var before, after := b[..k], b[k + 1..];
      assert b == before + [last] + after;
      MultisetsWithout(rest, before, last, after);
      PermutationKeepsSums(rest, before + after, date, f);
      AddLast(rest, before + after, last, date, f);
      GroupsCommute(before, after, [last], date, f);
      DatesCommute(before, after, last, date);
      hide DayOf;
      hide Sum;
      hide HasDate;
    }
  }

  lemma MultisetsWithout(rest: seq<Account>, before: seq<Account>, last: Account, after: seq<Account>)
    requires multiset(rest + [last]) == multiset(before + [last] + after)
    ensures multiset(rest) == multiset(before + after)
  {
    assert multiset(rest) == multiset(rest + [last]) - multiset{last};
    assert multiset(before + after) == multiset(before + [last] + after) - multiset{last};
  }

  /** The same account behind two lists with the same sums. */
  lemma AddLast(a: seq<Account>, b: seq<Account>, last: Account, date: Date, f: Field)
    requires DayOf(Entries(a), date) == DayOf(Entries(b), date) && Sum(Entries(a), f) == Sum(Entries(b), f)
    requires HasDate(Entries(a), date) ==> HasDate(Entries(b), date)
    ensures DayOf(Entries(a + [last]), date) == DayOf(Entries(b + [last]), date)
    ensures Sum(Entries(a + [last]), f) == Sum(Entries(b + [last]), f)
    ensures HasDate(Entries(a + [last]), date) ==> HasDate(Entries(b + [last]), date)
  {
    EntriesSplit(a, [last]);
    EntriesSplit(b, [last]);
    hide *;
    var x, y, z := Entries(a), Entries(b), Entries([last]);
    DayAdds(x, z, date);
    DayAdds(y, z, date);
    SumAtSplits(x, z, date, f);
    SumAtSplits(y, z, date, f);
    DatesAdd(x, z, date);
    DatesAdd(y, z, date);
  }

  /** Clamped sums add up to the clamped sum. */
  function PlusDay(a: Day, b: Day): Day {
    Day(SaturatingAdd(a.tokens, b.tokens), PlusCost(a.cost, b.cost), SaturatingAdd(a.priced, b.priced),
        SaturatingAdd(a.unpriced, b.unpriced))
  }

  lemma ClampAdds(a: nat, b: nat)
    ensures SaturatingAdd(Saturated(a), Saturated(b)) == Saturated(a + b)
  {
  }

  lemma DayAdds(a: seq<Point>, b: seq<Point>, date: Date)
    ensures DayOf(a + b, date) == PlusDay(DayOf(a, date), DayOf(b, date))
  {
    CostAtSplits(a, b, date);
    SumAtClamps(a, b, date, Tokens);
    SumAtClamps(a, b, date, Priced);
    SumAtClamps(a, b, date, Unpriced);
    hide SumAt;
    hide CostAt;
    hide Saturated;
    hide SaturatingAdd;
    hide PlusCost;
  }

  lemma SumAtClamps(a: seq<Point>, b: seq<Point>, date: Date, f: Field)
    ensures Saturated(SumAt(a + b, date, f)) == SaturatingAdd(Saturated(SumAt(a, date, f)), Saturated(SumAt(b, date, f)))
  {
    SumAtSplits(a, b, date, f);
    ClampAdds(SumAt(a, date, f), SumAt(b, date, f));
    hide SumAt;
    hide Saturated;
  }

  lemma DatesAdd(a: seq<Point>, b: seq<Point>, date: Date)
    ensures HasDate(a + b, date) <==> HasDate(a, date) || HasDate(b, date)
  {
    if HasDate(a, date) {
      var i :| 0 <= i < |a| && a[i].date == date;
      assert (a + b)[i].date == date;
    }
    if HasDate(b, date) {
      var i :| 0 <= i < |b| && b[i].date == date;
      assert (a + b)[|a| + i].date == date;
    }
  }

  lemma DatesCommute(before: seq<Account>, after: seq<Account>, last: Account, date: Date)
    ensures HasDate(Entries(before + after + [last]), date) <==> HasDate(Entries(before + [last] + after), date)
  {
    EntriesSplit(before + after, [last]);
    EntriesSplit(before, after);
    EntriesSplit(before + [last], after);
    EntriesSplit(before, [last]);
    var x, y, z := Entries(before), Entries(after), Entries([last]);
    DatesAdd(x, y, date);
    DatesAdd(x + y, z, date);
    DatesAdd(x, z, date);
    DatesAdd(x + z, y, date);
    hide Entries;
    hide HasDate;
  }

  /** The order of the accounts does not matter: a permutation gives the same days and, clamped as they
      are, the same totals, in spite of the saturation. */
  lemma OrderDoesNotMatter(a: seq<Account>, b: seq<Account>, days: Days, others: Days, f: Field)
    requires multiset(a) == multiset(b) && Represents(days, Entries(a)) && Represents(others, Entries(b))
    ensures days == others && Saturated(Sum(Entries(a), f)) == Saturated(Sum(Entries(b), f))
  {
    forall date: Date
      ensures date in days <==> date in others
      ensures date in days ==> days[date] == others[date]
    {
      PermutationKeepsSums(a, b, date, f);
      PermutationKeepsSums(b, a, date, f);
    }
    PermutationKeepsSums(a, b, Date(0), f);
  }

  // ----- Where the totals come from -----

  function PointsOf(points: Option<seq<Point>>): seq<Point> {
    if points.Some? then points.value else []
  }

  /** The points of an account that count for a field: its costs, except that tokens are counted from its
      activity when it has one. */
  function Counted(a: Account, f: Field): seq<Point> {
    if f.Tokens? && a.activity.Some? then a.activity.value else PointsOf(a.cost)
  }

  function CountedAt(accounts: seq<Account>, date: Date, f: Field): nat {
    if accounts == [] then 0
    else CountedAt(accounts[..|accounts| - 1], date, f) + SumAt(Counted(accounts[|accounts| - 1], f), date, f)
  }

  function CountedInAll(accounts: seq<Account>, f: Field): nat {
    if accounts == [] then 0
    else CountedInAll(accounts[..|accounts| - 1], f) + Sum(Counted(accounts[|accounts| - 1], f), f)
  }

  function CostsAt(accounts: seq<Account>, date: Date): Option<real> {
    if accounts == [] then None
    else PlusCost(CostsAt(accounts[..|accounts| - 1], date), CostAt(PointsOf(accounts[|accounts| - 1].cost), date))
  }

  predicate Mentions(a: Account, date: Date) {
    HasDate(PointsOf(a.activity), date) || HasDate(PointsOf(a.cost), date)
  }

  lemma {:induction false} ActivityCounts(points: seq<Point>, date: Date, f: Field)
    ensures SumAt(ActivityEntries(points), date, f) == if f.Tokens? then SumAt(points, date, f) else 0
    ensures Sum(ActivityEntries(points), f) == if f.Tokens? then Sum(points, f) else 0
    ensures CostAt(ActivityEntries(points), date) == None
  {
    if points != [] {
      var n := |points| - 1;
      ActivityCounts(points[..n], date, f);
      assert ActivityEntries(points)[..n] == ActivityEntries(points[..n]);
    }
  }

  lemma {:induction false} CostCounts(points: seq<Point>, hasActivity: bool, date: Date, f: Field)
    ensures SumAt(CostEntries(points, hasActivity), date, f) == if f.Tokens? && hasActivity then 0 else SumAt(points, date, f)
    ensures Sum(CostEntries(points, hasActivity), f) == if f.Tokens? && hasActivity then 0 else Sum(points, f)
    ensures CostAt(CostEntries(points, hasActivity), date) == CostAt(points, date)
  {
    if points != [] {
      var n := |points| - 1;
      CostCounts(points[..n], hasActivity, date, f);
      assert CostEntries(points, hasActivity)[..n] == CostEntries(points[..n], hasActivity);
    }
  }

  lemma EntriesMention(a: Account, date: Date)
    ensures HasDate(EntriesOf(a), date) <==> Mentions(a, date)
  {
    var activity := if a.activity.Some? then ActivityEntries(a.activity.value) else [];
    var cost := if a.cost.Some? then CostEntries(a.cost.value, a.activity.Some?) else [];
    DatesAdd(activity, cost, date);
    SameDates(activity, PointsOf(a.activity), date);
    SameDates(cost, PointsOf(a.cost), date);
  }

  lemma SameDates(entries: seq<Point>, points: seq<Point>, date: Date)
    requires |entries| == |points| && forall i :: 0 <= i < |points| ==> entries[i].date == points[i].date
    ensures HasDate(entries, date) <==> HasDate(points, date)
  {
    if HasDate(points, date) {
      var i :| 0 <= i < |points| && points[i].date == date;
      assert entries[i].date == date;
    }
    if HasDate(entries, date) {
      var i :| 0 <= i < |entries| && entries[i].date == date;
      assert points[i].date == date;
    }
  }

  lemma AccountCounts(a: Account, date: Date, f: Field)
    ensures SumAt(EntriesOf(a), date, f) == SumAt(Counted(a, f), date, f)
    ensures Sum(EntriesOf(a), f) == Sum(Counted(a, f), f)
    ensures CostAt(EntriesOf(a), date) == CostAt(PointsOf(a.cost), date)
  {
    var activity := if a.activity.Some? then ActivityEntries(a.activity.value) else [];
    var cost := if a.cost.Some? then CostEntries(a.cost.value, a.activity.Some?) else [];
    SumAtSplits(activity, cost, date, f);
    CostAtSplits(activity, cost, date);
    if a.activity.Some? { ActivityCounts(a.activity.value, date, f); }
    if a.cost.Some? { CostCounts(a.cost.value, a.activity.Some?, date, f); }
    hide ActivityEntries;
    hide CostEntries;
    assert SumAt([], date, f) == 0 && Sum([], f) == 0 && CostAt([], date) == None;
  }

  /** The entries add up to what the accounts say, each token counted from one source only. */
  lemma {:induction false} AccountsCount(accounts: seq<Account>, date: Date, f: Field)
    ensures SumAt(Entries(accounts), date, f) == CountedAt(accounts, date, f)
    ensures Sum(Entries(accounts), f) == CountedInAll(accounts, f)
    ensures CostAt(Entries(accounts), date) == CostsAt(accounts, date)
  {
    hide EntriesOf;
    hide Counted;
    hide PlusCost;
    if accounts != [] {
      var rest, last := accounts[..|accounts| - 1], accounts[|accounts| - 1];
      AccountsCount(rest, date, f);
      AccountCounts(last, date, f);
      SumAtSplits(Entries(rest), EntriesOf(last), date, f);
      CostAtSplits(Entries(rest), EntriesOf(last), date);
    }
  }

  lemma {:induction false} AccountsMention(accounts: seq<Account>, date: Date)
    ensures HasDate(Entries(accounts), date) <==> exists a :: a in accounts && Mentions(a, date)
  {
    hide EntriesOf;
    hide Mentions;
    if accounts != [] {
      var rest, last := accounts[..|accounts| - 1], accounts[|accounts| - 1];
      AccountsMention(rest, date);
      EntriesMention(last, date);
      DatesAdd(Entries(rest), EntriesOf(last), date);
      hide HasDate;
      assert accounts == rest + [last];
    }
  }

  /** A day exists for exactly the dates that some account mentions, and holds what the accounts say about it:
      the tokens of their activity, or of their costs where there is no activity, and everything else from
      their costs, each sum clamped once. */
  lemma DayIsExact(accounts: seq<Account>, days: Days, date: Date)
    requires Represents(days, Entries(accounts))
    ensures date in days <==> exists a :: a in accounts && Mentions(a, date)
    ensures date in days ==>
              days[date] == Day(Saturated(CountedAt(accounts, date, Tokens)), CostsAt(accounts, date),
                                Saturated(CountedAt(accounts, date, Priced)), Saturated(CountedAt(accounts, date, Unpriced)))
  {
    AccountsCount(accounts, date, Tokens);
    AccountsCount(accounts, date, Priced);
    AccountsCount(accounts, date, Unpriced);
    AccountsMention(accounts, date);
  }
}
