/** The summary service: the month window computed from a `YYYY-MM` value,
    the monthly income/expense totals, and the per-category totals grouped
    by transaction type.

    The window end is built as day 0 of the requested month index, which is
    the last day of the PREVIOUS month; with the end time 23:59:59.999 it
    falls exactly one millisecond before the window start, so for every
    accepted month the window is empty and both summaries come out empty. */
module SummaryService {
  import opened Common
  import opened Entities
  import opened MonthQuery

  // ---- the local-time arithmetic of `new Date(y, m, d, h, min, s, ms)` ----

  /** The day number of 1 January of `year`, counted from 1 January 1970. */
  function DayFromYear(year: int): int {
    365 * (year - 1970) + (year - 1969) / 4 - (year - 1901) / 100 + (year - 1601) / 400
  }

  predicate IsLeapYear(year: int) {
    (year % 4 == 0 && year % 100 != 0) || year % 400 == 0
  }

  /** The number of days of the year before the first of month index `mn`
      (0 = January). */
  function DaysBeforeMonth(mn: int, leap: bool): int
    requires 0 <= mn < 12
  {
    var common := [0, 31, 59, 90, 120, 151, 181, 212, 243, 273, 304, 334];
    common[mn] + if leap && mn >= 2 then 1 else 0
  }

  /** The day number of the first day of month index `month` of `year`;
      indices outside 0..11 carry into the year. */
  function FirstOfMonth(year: int, month: int): int {
    var ym := year + month / 12;
    var mn := month % 12;
    DayFromYear(ym) + DaysBeforeMonth(mn, IsLeapYear(ym))
  }

  /** MakeDay: `date` counts from the first of the month, so date 0 is the
      day before it, the last day of the previous month. */
  function MakeDay(year: int, month: int, date: int): int {
    FirstOfMonth(year, month) + date - 1
  }

  function MakeTime(hour: int, minute: int, second: int, ms: int): int {
    ((hour * 60 + minute) * 60 + second) * 1000 + ms
  }

  function MakeDate(day: int, time: int): Timestamp {
    StartOfDay(day) + time
  }

  /** The first instant of day number `day`. */
  function StartOfDay(day: int): Timestamp {
    day * 86400000
  }

  /** A two-digit year given to the Date constructor means 1900 + year. */
  function FullYear(year: int): int {
    if 0 <= year <= 99 then 1900 + year else year
  }

  /** `new Date(year, monthIndex, date, hour, minute, second, ms)`: with a
      time of day in range, an instant of the day that year, month index and
      date name. */
  function LocalDate(year: int, monthIndex: int, date: int, hour: int, minute: int, second: int, ms: int): (t: Timestamp)
    ensures var day := MakeDay(FullYear(year), monthIndex, date);
            0 <= hour < 24 && 0 <= minute < 60 && 0 <= second < 60 && 0 <= ms < 1000 ==>
              StartOfDay(day) <= t < StartOfDay(day + 1)
  {
    MakeDate(MakeDay(FullYear(year), monthIndex, date), MakeTime(hour, minute, second, ms))
  }

  /** The [startDate, endDate] pair both summary operations query with:
      `new Date(year, month - 1, 1)`, midnight of the first of the month,
      and `new Date(year, month - 1, 0, 23, 59, 59, 999)`, the last
      millisecond of the day BEFORE the first of the month. */
  function MonthWindow(year: int, month: int): (w: (Timestamp, Timestamp))
    ensures w.0 == StartOfDay(FirstOfMonth(FullYear(year), month - 1))
    ensures w.1 == StartOfDay(FirstOfMonth(FullYear(year), month - 1) - 1) + 86399999
  {
    (LocalDate(year, month - 1, 1, 0, 0, 0, 0), LocalDate(year, month - 1, 0, 23, 59, 59, 999))
  }

  /** Day 0 of a month is the day before its first day. */
  lemma DayZeroIsDayBefore(year: int, month: int)
    ensures MakeDay(year, month, 0) == MakeDay(year, month, 1) - 1
  {
  }

  /** The last millisecond of a day is one before the first of the next. */
  lemma EndOfDayBeforeNext(day: int)
    ensures MakeDate(day - 1, MakeTime(23, 59, 59, 999)) == MakeDate(day, MakeTime(0, 0, 0, 0)) - 1
  {
    var endTime := MakeTime(23, 59, 59, 999);
    assert endTime == 86399999;
    var startTime := MakeTime(0, 0, 0, 0);
    assert startTime == 0;
    assert StartOfDay(day - 1) == StartOfDay(day) - 86400000;
  }

  /** For every year and month the end of the window is one millisecond
      before its start: no instant lies within it. */
  lemma WindowIsInverted(year: int, month: int)
    ensures MonthWindow(year, month).1 == MonthWindow(year, month).0 - 1
    ensures MonthWindow(year, month).1 < MonthWindow(year, month).0
  {
    var y := FullYear(year);
    DayZeroIsDayBefore(y, month - 1);
    EndOfDayBeforeNext(MakeDay(y, month - 1, 1));
  }

  /** The window of an accepted `month` value. */
  function WindowOf(month: string): (w: (Timestamp, Timestamp))
    requires IsMonth(month)
    ensures w.1 < w.0
  {
    var ym := ParseMonth(month);
    WindowIsInverted(ym.0, ym.1);
    MonthWindow(ym.0, ym.1)
  }

  lemma FirstOfMay2024()
    ensures FirstOfMonth(2024, 4) == 19844
  {
    assert DayFromYear(2024) == 19723;
    assert DaysBeforeMonth(4, true) == 121;
  }

  /** The window of "2024-05" starts at midnight of 1 May 2024
      (1714521600000 ms after the epoch, local time) and ends one
      millisecond earlier, on 30 April 2024. */
  lemma WindowExample()
    ensures WindowOf("2024-05") == (1714521600000, 1714521599999)
  {
    MonthExamples();
    FirstOfMay2024();
    WindowIsInverted(2024, 5);
    assert MakeTime(0, 0, 0, 0) == 0;
    assert MonthWindow(2024, 5).0 == MakeDate(19844, 0);
  }

  // ---- getMonthlySummary ----

  datatype MonthlySummary = MonthlySummary(totalIncome: real, totalExpense: real, netBalance: real)

  /** The sum of the amounts of the transactions of kind `kind`; nothing of
      that kind sums to zero. */
  function KindTotal(txs: seq<Transaction>, kind: TransactionType): (total: real)
    ensures (forall i :: 0 <= i < |txs| ==> txs[i].kind != kind) ==> total == 0.0
  {
    if txs == [] then 0.0
    else
      var last := txs[|txs| - 1];
      KindTotal(txs[..|txs| - 1], kind) + if last.kind == kind then last.amount else 0.0
  }

  /** Every amount goes to exactly one side: income and expense add up to
      the sum of all amounts. */
  lemma {:induction false} KindTotalsPartition(txs: seq<Transaction>)
    ensures KindTotal(txs, Income) + KindTotal(txs, Expense) == Sum(txs)
    decreases |txs|
  {
    if txs != [] {
      KindTotalsPartition(txs[..|txs| - 1]);
    }
  }

  lemma {:induction false} KindTotalAppend(a: seq<Transaction>, b: seq<Transaction>, kind: TransactionType)
    ensures KindTotal(a + b, kind) == KindTotal(a, kind) + KindTotal(b, kind)
    decreases |b|
  {
    if b == [] {
      assert a + b == a;
    } else {
      assert (a + b)[..|a + b| - 1] == a + b[..|b| - 1];
      KindTotalAppend(a, b[..|b| - 1], kind);
    }
  }

  /** The `forEach` that adds each amount to `totalIncome` when the
      transaction is income and to `totalExpense` otherwise. */
  method MonthlyTotals(txs: seq<Transaction>) returns (s: MonthlySummary)
    ensures s.totalIncome == KindTotal(txs, Income)
    ensures s.totalExpense == KindTotal(txs, Expense)
    ensures s.netBalance == s.totalIncome - s.totalExpense
    ensures s.totalIncome + s.totalExpense == Sum(txs)
    ensures txs == [] ==> s == MonthlySummary(0.0, 0.0, 0.0)
  {
    var totalIncome := 0.0;
    var totalExpense := 0.0;
    var i := 0;
    while i < |txs|
      invariant 0 <= i <= |txs|
      invariant totalIncome == KindTotal(txs[..i], Income)
      invariant totalExpense == KindTotal(txs[..i], Expense)
    {
      assert txs[..i + 1][..i] == txs[..i];
      var txn := txs[i];
      if txn.kind == Income {
        totalIncome := totalIncome + txn.amount;
      } else {
        totalExpense := totalExpense + txn.amount;
      }
      i := i + 1;
    }
    assert txs[..i] == txs;
    KindTotalsPartition(txs);
    s := MonthlySummary(totalIncome, totalExpense, totalIncome - totalExpense);
  }

  /** Two incomes of 100 and 25 and an expense of 50 give a total income
      of 125, a total expense of 50 and a net balance of 75. */
  lemma MonthlyExample(u: Option<string>, d: Timestamp)
    ensures var txs := [Transaction("a", u, 100.0, "c", Income, d, None),
                        Transaction("b", u, 50.0, "c", Expense, d, None),
                        Transaction("c", u, 25.0, "c", Income, d, None)];
            && KindTotal(txs, Income) == 125.0 && KindTotal(txs, Expense) == 50.0
            && KindTotal(txs, Income) - KindTotal(txs, Expense) == 75.0
  {
    var a := Transaction("a", u, 100.0, "c", Income, d, None);
    var b := Transaction("b", u, 50.0, "c", Expense, d, None);
    var c := Transaction("c", u, 25.0, "c", Income, d, None);
    assert [a, b, c][..2] == [a, b];
    assert [a, b][..1] == [a];
    assert [a][..0] == [];
    assert KindTotal([a], Income) == 100.0;
    assert KindTotal([a], Expense) == KindTotal([], Expense) + 0.0;
    assert KindTotal([a, b], Income) == 100.0 && KindTotal([a, b], Expense) == 50.0;
  }

  /** getMonthlySummary: the user's transactions within the window of
      `month`, folded into totals. The window is empty, so the result is all
      zeros whatever the store holds. */
  method GetMonthlySummary(store: seq<Transaction>, userId: string, month: string) returns (s: MonthlySummary)
    requires IsMonth(month)
    ensures var w := WindowOf(month);
            var txs := Within(store, userId, w.0, w.1);
            s.totalIncome == KindTotal(txs, Income) && s.totalExpense == KindTotal(txs, Expense)
    ensures s.netBalance == s.totalIncome - s.totalExpense
    ensures s == MonthlySummary(0.0, 0.0, 0.0)
  {
    var w := WindowOf(month);
    var txs := Within(store, userId, w.0, w.1);
    EmptyWindowSelectsNothing(store, userId, w.0, w.1);
    s := MonthlyTotals(txs);
  }

  // ---- getSummaryByCategory ----

  /** One row of the grouped query: the total of one (type, category). */
  datatype CategoryRow = CategoryRow(kind: TransactionType, category: string, total: real)

  type CategorySummary = map<TransactionType, map<string, real>>

  function KeyOf(t: Transaction): (TransactionType, string) {
    (t.kind, t.category)
  }

  /** The distinct (type, category) pairs of `txs`, in order of first
      appearance. */
  function GroupKeys(txs: seq<Transaction>): (keys: seq<(TransactionType, string)>)
    ensures forall i, j :: 0 <= i < j < |keys| ==> keys[i] != keys[j]
    ensures forall key :: key in keys <==> exists t :: t in txs && KeyOf(t) == key
  {
    if txs == [] then []
    else
      var init := txs[..|txs| - 1];
      var last := txs[|txs| - 1];
      assert txs == init + [last];
      var keys := GroupKeys(init);
      if KeyOf(last) in keys then keys else keys + [KeyOf(last)]
  }

  /** The sum of the amounts of the transactions with the given key. */
  function KeyTotal(txs: seq<Transaction>, key: (TransactionType, string)): real {
    if txs == [] then 0.0
    else
      var last := txs[|txs| - 1];
      KeyTotal(txs[..|txs| - 1], key) + if KeyOf(last) == key then last.amount else 0.0
  }

  /** `GROUP BY tx.type, tx.category` with `SUM(tx.amount)`: one row per
      distinct pair. */
  function GroupRows(txs: seq<Transaction>): (rows: seq<CategoryRow>)
    ensures |rows| == |GroupKeys(txs)|
    ensures forall i :: 0 <= i < |rows| ==>
      (rows[i].kind, rows[i].category) == GroupKeys(txs)[i] && rows[i].total == KeyTotal(txs, GroupKeys(txs)[i])
  {
    var keys := GroupKeys(txs);
    seq(|keys|, i requires 0 <= i < |keys| => CategoryRow(keys[i].0, keys[i].1, KeyTotal(txs, keys[i])))
  }

  predicate HasKey(row: CategoryRow, kind: TransactionType, category: string) {
    row.kind == kind && row.category == category
  }

  /** The total the LAST row with this type and category carries, if any:
      later rows overwrite earlier ones. */
  function LastTotal(rows: seq<CategoryRow>, kind: TransactionType, category: string): (r: Option<real>)
    ensures r.None? <==> forall i :: 0 <= i < |rows| ==> !HasKey(rows[i], kind, category)
    ensures r.Some? ==> exists i :: && 0 <= i < |rows| && HasKey(rows[i], kind, category)
                                    && rows[i].total == r.value
                                    && forall j :: i < j < |rows| ==> !HasKey(rows[j], kind, category)
  {
    if rows == [] then None
    else
      var init := rows[..|rows| - 1];
      var last := rows[|rows| - 1];
      if HasKey(last, kind, category) then
        Some(last.total)
      else
        var r := LastTotal(init, kind, category);
        assert forall i :: 0 <= i < |init| ==> init[i] == rows[i];
        r
  }

  /** The value a summary holds under a type and a category. */
  function Lookup(summary: CategorySummary, kind: TransactionType, category: string): Option<real> {
    if kind in summary && category in summary[kind] then Some(summary[kind][category]) else None
  }

  /** The `forEach` that writes each row's total under its type and
      category, starting from `{Income: {}, Expense: {}}`. */
  method SummarizeRows(rows: seq<CategoryRow>) returns (summary: CategorySummary)
    ensures summary.Keys == {Income, Expense}
    ensures forall kind, category :: Lookup(summary, kind, category) == LastTotal(rows, kind, category)
  {
    summary := map[Income := map[], Expense := map[]];
    var i := 0;
    while i < |rows|
      invariant 0 <= i <= |rows|
      invariant summary.Keys == {Income, Expense}
      invariant forall kind, category :: Lookup(summary, kind, category) == LastTotal(rows[..i], kind, category)
    {
      assert rows[..i + 1][..i] == rows[..i];
      var row := rows[i];
      assert row.kind == Income || row.kind == Expense;
      summary := summary[row.kind := summary[row.kind][row.category := row.total]];
      i := i + 1;
    }
    assert rows[..i] == rows;
  }

  /** When the (type, category) pairs of the rows are distinct, as those of
      a grouped query are, each pair maps to its own row's total. */
  lemma {:induction false} LastTotalOfDistinct(rows: seq<CategoryRow>, k: nat)
    requires forall i, j :: 0 <= i < j < |rows| ==> (rows[i].kind, rows[i].category) != (rows[j].kind, rows[j].category)
    requires k < |rows|
    ensures LastTotal(rows, rows[k].kind, rows[k].category) == Some(rows[k].total)
    decreases |rows|
  {
    if k < |rows| - 1 {
      LastTotalOfDistinct(rows[..|rows| - 1], k);
    }
  }

  /** Folding the grouped rows of `txs` gives, for every type and category
      that occurs, the sum of the matching amounts, and nothing else. */
  lemma GroupedSummary(txs: seq<Transaction>, kind: TransactionType, category: string)
    ensures LastTotal(GroupRows(txs), kind, category) ==
      if (kind, category) in GroupKeys(txs) then Some(KeyTotal(txs, (kind, category))) else None
  {
    var rows := GroupRows(txs);
    var keys := GroupKeys(txs);
    if (kind, category) in keys {
      var k :| 0 <= k < |keys| && keys[k] == (kind, category);
      LastTotalOfDistinct(rows, k);
    }
  }

  /** The rows of the example give {Income: {Salary: 3000}, Expense:
      {Food: 120.5, Travel: 79.5}} and nothing under any other type and
      category. */
  lemma CategoryExample()
    ensures var rows := [CategoryRow(Income, "Salary", 3000.0), CategoryRow(Expense, "Food", 120.5),
                         CategoryRow(Expense, "Travel", 79.5)];
            && LastTotal(rows, Income, "Salary") == Some(3000.0)
            && LastTotal(rows, Expense, "Food") == Some(120.5)
            && LastTotal(rows, Expense, "Travel") == Some(79.5)
            && forall kind, category | (kind, category) !in {(Income, "Salary"), (Expense, "Food"), (Expense, "Travel")} ::
                 LastTotal(rows, kind, category) == None
  {
    var a := CategoryRow(Income, "Salary", 3000.0);
    var b := CategoryRow(Expense, "Food", 120.5);
    var c := CategoryRow(Expense, "Travel", 79.5);
    var rows := [a, b, c];
    assert rows[..2] == [a, b];
    assert [a, b][..1] == [a];
    assert [a][..0] == [];
  }

  /** getSummaryByCategory: the grouped totals of the user's transactions
      within the window of `month`. The window is empty, so both types map
      to empty category maps. */
  method GetSummaryByCategory(store: seq<Transaction>, userId: string, month: string) returns (summary: CategorySummary)
    requires IsMonth(month)
    ensures summary.Keys == {Income, Expense}
    ensures var w := WindowOf(month);
            forall kind, category :: Lookup(summary, kind, category) == LastTotal(GroupRows(Within(store, userId, w.0, w.1)), kind, category)
    ensures summary[Income] == map[] && summary[Expense] == map[]
  {
    var w := WindowOf(month);
    var rows := GroupRows(Within(store, userId, w.0, w.1));
    EmptyWindowSelectsNothing(store, userId, w.0, w.1);
    assert rows == [];
    summary := SummarizeRows(rows);
    forall kind | kind in summary ensures summary[kind] == map[] {
      forall c ensures c !in summary[kind] {
        assert Lookup(summary, kind, c) == None;
      }
    }
  }
}
