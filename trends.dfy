/** The trend analysis of moneyterm/widgets/trends.py (`TrendAnalysis`): the
    month generator `iterate_months`, and `analyse`, which filters the
    transactions carrying a label to a date window and computes the total,
    median, minimum, maximum and count of their amounts and the total of each
    calendar month from the first to the last month with a transaction. */
module Trends {
  import opened Common
  import opened Ledger

  // ---------------------------------------------------------------------------
  // Months

  /** The first day of the month after `d`'s (`replace(month=..., day=1)`, with
      December rolling over to January of the next year). */
  function NextMonthStart(d: Date): (r: Date)
    requires ValidDate(d)
    ensures ValidDate(r) && r.day == 1 && DateLt(d, r)
    ensures forall x :: ValidDate(x) && DateLt(d, x) && x.month != d.month ==> DateLe(r, x)
  {
    if d.month == 12 then Date(d.year + 1, 1, 1) else Date(d.year, d.month + 1, 1)
  }

  /** `d - timedelta(days=1)`: the valid date just before `d`. */
  function DayBefore(d: Date): (r: Date)
    requires ValidDate(d)
    ensures ValidDate(r) && DateLt(r, d)
    ensures forall x :: ValidDate(x) && DateLt(r, x) ==> DateLe(d, x)
  {
    if d.day > 1 then Date(d.year, d.month, d.day - 1)
    else if d.month == 1 then Date(d.year - 1, 12, 31)
    else Date(d.year, d.month - 1, DaysInMonth(d.year, d.month - 1))
  }

  /** The last day of `d`'s month. */
  function MonthEnd(d: Date): Date {
    Date(d.year, d.month, DaysInMonth(d.year, d.month))
  }

  /** One step of the generator: the first of the next month, moved back a day
      at a time while its day is below the current day. From the first of a
      month it is the first of the next month; from any later day the step
      lands on the last day of the current month. */
  function Step(d: Date): (r: Date)
    requires ValidDate(d)
    ensures ValidDate(r) && r.day >= d.day
    ensures d.day == 1 ==> r == NextMonthStart(d)
    ensures d.day > 1 ==> r == MonthEnd(d)
  {
    var next := NextMonthStart(d);
    if next.day < d.day then DayBefore(next) else next
  }

  /** The body of the generator's loop: the clamp loop runs at most once. */
  method NextMonth(d: Date) returns (next: Date)
    requires ValidDate(d)
    ensures next == Step(d)
  {
    next := NextMonthStart(d);
    while next.day < d.day
      invariant next == NextMonthStart(d) || next == DayBefore(NextMonthStart(d))
      invariant next != NextMonthStart(d) ==> 1 < d.day
      decreases if next == NextMonthStart(d) then 1 else 0
    {
      next := DayBefore(next);
    }
  }

  /** `d` advanced `k` steps. */
  function StepN(d: Date, k: nat): (r: Date)
    requires ValidDate(d)
    ensures ValidDate(r)
  {
    if k == 0 then d else Step(StepN(d, k - 1))
  }

  /** From a day after the first, the generator is stuck on the last day of the
      month: while that day is not past the end date it is yielded again and
      again, so `iterate_months` terminates only from the first of a month. */
  lemma {:induction false} StuckAfterFirst(d: Date, end: Date, k: nat)
    requires ValidDate(d) && d.day > 1
    requires DateLe(MonthEnd(d), end)
    ensures StepN(d, k + 1) == MonthEnd(d)
    ensures DateLe(StepN(d, k), end)
  {
    if k > 0 {
      StuckAfterFirst(d, end, k - 1);
      assert StepN(d, k) == MonthEnd(d);
      assert Step(MonthEnd(d)) == MonthEnd(d);
    }
  }

  /** Months counted from year 0: the position of a date's month. */
  function MonthIndex(d: Date): int {
    d.year * 12 + (d.month - 1)
  }

  /** The first day of the month at a position. */
  function FromIndex(i: int): (r: Date)
    ensures ValidDate(r) && r.day == 1 && MonthIndex(r) == i
  {
    Date(i / 12, i % 12 + 1, 1)
  }

  lemma FromIndexOf(d: Date)
    requires ValidDate(d)
    ensures FromIndex(MonthIndex(d)) == Date(d.year, d.month, 1)
  {
    var i := MonthIndex(d);
    assert i == d.year * 12 + (d.month - 1) && 0 <= d.month - 1 < 12;
    assert i / 12 == d.year && i % 12 == d.month - 1;
  }

  /** Between valid dates, one on the first of its month is no later than
      another exactly when its month is no later. */
  lemma FirstLeIndex(a: Date, b: Date)
    requires ValidDate(a) && ValidDate(b) && a.day == 1
    ensures DateLe(a, b) <==> MonthIndex(a) <= MonthIndex(b)
  {
  }

  lemma StepIndex(d: Date)
    requires ValidDate(d) && d.day == 1
    ensures MonthIndex(Step(d)) == MonthIndex(d) + 1
  {
  }

  /** The first days of the months from `start`'s through `end`'s, in order. */
  function MonthSpan(start: Date, end: Date): (r: seq<Date>)
    ensures |r| == if MonthIndex(end) < MonthIndex(start) then 0 else MonthIndex(end) - MonthIndex(start) + 1
    ensures forall i :: 0 <= i < |r| ==> r[i] == FromIndex(MonthIndex(start) + i)
  {
    var n := if MonthIndex(end) < MonthIndex(start) then 0 else MonthIndex(end) - MonthIndex(start) + 1;
    seq(n, i => FromIndex(MonthIndex(start) + i))
  }

  /** The span starts at `start`, every element is the first of a month, each
      one is followed by the first of the next month, and it holds exactly the
      first days of months between `start` and `end`, both included. */
  lemma MonthSpanShape(start: Date, end: Date)
    requires ValidDate(start) && start.day == 1 && ValidDate(end)
    ensures DateLe(start, end) ==> |MonthSpan(start, end)| > 0 && MonthSpan(start, end)[0] == start
    ensures forall i :: 0 <= i < |MonthSpan(start, end)| ==> ValidDate(MonthSpan(start, end)[i]) && MonthSpan(start, end)[i].day == 1
    ensures forall i :: 0 <= i < |MonthSpan(start, end)| - 1 ==>
              MonthSpan(start, end)[i + 1] == NextMonthStart(MonthSpan(start, end)[i])
    ensures forall d :: ValidDate(d) && d.day == 1 ==>
              (d in MonthSpan(start, end) <==> DateLe(start, d) && DateLe(d, end))
  {
    var r := MonthSpan(start, end);
    FromIndexOf(start);
    forall i | 0 <= i < |r| - 1 ensures r[i + 1] == NextMonthStart(r[i]) {
      StepIndex(r[i]);
      FromIndexOf(NextMonthStart(r[i]));
    }
    forall d | ValidDate(d) && d.day == 1 ensures d in r <==> DateLe(start, d) && DateLe(d, end) {
      FirstLeIndex(start, d);
      FirstLeIndex(d, end);
      if DateLe(start, d) && DateLe(d, end) {
        FromIndexOf(d);
        assert r[MonthIndex(d) - MonthIndex(start)] == d;
      }
    }
  }

  /** `iterate_months` from the first of a month: the generator's loop, with the
      values it yields collected in order. */
  method IterateMonths(start: Date, end: Date) returns (months: seq<Date>)
    requires ValidDate(start) && start.day == 1 && ValidDate(end)
    ensures months == MonthSpan(start, end)
  {
    months := [];
    var cur := start;
    ghost var n := |MonthSpan(start, end)|;
    FirstLeIndex(cur, end);
    while DateLe(cur, end)
      invariant ValidDate(cur) && cur.day == 1
      invariant MonthIndex(cur) == MonthIndex(start) + |months|
      invariant |months| <= n
      invariant DateLe(cur, end) <==> |months| < n
      invariant months == MonthSpan(start, end)[..|months|]
      decreases n - |months|
    {
      FromIndexOf(cur);
      months := months + [cur];
      StepIndex(cur);
      cur := NextMonth(cur);
      FirstLeIndex(cur, end);
    }
  }

  // ---------------------------------------------------------------------------
  // The statistics

  /** The date window of `analyse`: each bound that is set is inclusive. */
  predicate InWindow(t: Transaction, start: Option<Date>, end: Option<Date>) {
    (start.Some? ==> DateLe(start.value, t.date)) && (end.Some? ==> DateLe(t.date, end.value))
  }

  /** The two comprehensions filtering by the start date and then by the end
      date: the transactions inside the window, order kept. */
  function Window(s: seq<Transaction>, start: Option<Date>, end: Option<Date>): (r: seq<Transaction>)
    ensures forall t :: multiset(r)[t] == if InWindow(t, start, end) then multiset(s)[t] else 0
    ensures forall t :: t in r <==> t in s && InWindow(t, start, end)
  {
    if |s| == 0 then []
    else
      assert s == s[..|s| - 1] + [s[|s| - 1]];
      Window(s[..|s| - 1], start, end) + if InWindow(s[|s| - 1], start, end) then [s[|s| - 1]] else []
  }

  /** What a transaction contributes to the subject: its split for the subject
      if it has one, else its amount, taken as an absolute value. */
  function SubjectAmount(t: Transaction, subject: string): real {
    Abs(if subject in t.splits then t.splits[subject] else t.amount)
  }

  /** The amounts of `s` for the subject, in order. */
  function Amounts(s: seq<Transaction>, subject: string): (r: seq<real>)
    ensures |r| == |s|
    ensures forall i :: 0 <= i < |s| ==> r[i] == SubjectAmount(s[i], subject) && r[i] >= 0.0
  {
    if |s| == 0 then []
    else Amounts(s[..|s| - 1], subject) + [SubjectAmount(s[|s| - 1], subject)]
  }

  lemma AmountsSnoc(s: seq<Transaction>, i: nat, subject: string)
    requires i < |s|
    ensures Amounts(s[..i + 1], subject) == Amounts(s[..i], subject) + [SubjectAmount(s[i], subject)]
  {
    assert s[..i + 1][..i] == s[..i];
  }

  function Sum(xs: seq<real>): real {
    if |xs| == 0 then 0.0 else Sum(xs[..|xs| - 1]) + xs[|xs| - 1]
  }

  lemma {:induction false} SumNonNegative(xs: seq<real>)
    requires forall i :: 0 <= i < |xs| ==> xs[i] >= 0.0
    ensures Sum(xs) >= 0.0
  {
    if |xs| > 0 {
      SumNonNegative(xs[..|xs| - 1]);
    }
  }

  lemma {:induction false} SumAppend(xs: seq<real>, ys: seq<real>)
    ensures Sum(xs + ys) == Sum(xs) + Sum(ys)
  {
    if |ys| > 0 {
      assert (xs + ys)[..|xs + ys| - 1] == xs + ys[..|ys| - 1];
      SumAppend(xs, ys[..|ys| - 1]);
    } else {
      assert xs + ys == xs;
    }
  }

  /** Adding two sequences element by element adds their sums. */
  lemma {:induction false} SumPointwise(xs: seq<real>, ys: seq<real>, zs: seq<real>)
    requires |xs| == |ys| == |zs|
    requires forall j :: 0 <= j < |zs| ==> zs[j] == xs[j] + ys[j]
    ensures Sum(zs) == Sum(xs) + Sum(ys)
  {
    if |zs| > 0 {
      SumPointwise(xs[..|xs| - 1], ys[..|ys| - 1], zs[..|zs| - 1]);
    }
  }

  /** A sequence that is zero except at one position sums to that entry. */
  lemma {:induction false} SumSingle(xs: seq<real>, j0: nat)
    requires j0 < |xs|
    requires forall j :: 0 <= j < |xs| && j != j0 ==> xs[j] == 0.0
    ensures Sum(xs) == xs[j0]
  {
    if j0 == |xs| - 1 {
      SumZero(xs[..|xs| - 1]);
    } else {
      SumSingle(xs[..|xs| - 1], j0);
    }
  }

  lemma {:induction false} SumZero(xs: seq<real>)
    requires forall j :: 0 <= j < |xs| ==> xs[j] == 0.0
    ensures Sum(xs) == 0.0
  {
    if |xs| > 0 {
      SumZero(xs[..|xs| - 1]);
    }
  }

  ghost predicate Ascending(xs: seq<real>) {
    forall i, j :: 0 <= i < j < |xs| ==> xs[i] <= xs[j]
  }

  /** A value no larger than anything of an ascending list may head it. */
  lemma ConsAscending(h: real, xs: seq<real>, t: seq<real>, x: real)
    requires Ascending(xs) && |xs| > 0 && xs[0] < x && h == xs[0]
    requires Ascending(t) && multiset(t) == multiset(xs[1..]) + multiset{x}
    ensures Ascending([h] + t)
  {
    forall j | 0 <= j < |t| ensures h <= t[j] {
      assert t[j] in multiset(t);
      if t[j] in multiset(xs[1..]) {
        var m :| 0 <= m < |xs[1..]| && xs[1..][m] == t[j];
        assert xs[m + 1] == t[j];
      }
    }
  }

  function InsertAscending(xs: seq<real>, x: real): (r: seq<real>)
    requires Ascending(xs)
    ensures Ascending(r) && multiset(r) == multiset(xs) + multiset{x}
  {
    if |xs| == 0 then [x]
    else if x <= xs[0] then [x] + xs
    else
      assert xs == [xs[0]] + xs[1..];
      var t := InsertAscending(xs[1..], x);
      ConsAscending(xs[0], xs, t, x);
      [xs[0]] + t
  }

  /** Python's `sorted` on the amounts. */
  function SortAscending(xs: seq<real>): (r: seq<real>)
    ensures Ascending(r) && multiset(r) == multiset(xs) && |r| == |xs|
  {
    if |xs| == 0 then []
    else
      var init := xs[..|xs| - 1];
      assert xs == init + [xs[|xs| - 1]];
      assert multiset(xs) == multiset(init) + multiset{xs[|xs| - 1]};
      InsertAscending(SortAscending(init), xs[|xs| - 1])
  }

  /** Python's `min` on a non-empty list. */
  function MinOf(xs: seq<real>): (r: real)
    requires |xs| > 0
    ensures r in xs && forall x :: x in xs ==> r <= x
  {
    if |xs| == 1 then xs[0]
    else
      assert xs == xs[..|xs| - 1] + [xs[|xs| - 1]];
      var m := MinOf(xs[..|xs| - 1]);
      if xs[|xs| - 1] < m then xs[|xs| - 1] else m
  }

  /** Python's `max` on a non-empty list. */
  function MaxOf(xs: seq<real>): (r: real)
    requires |xs| > 0
    ensures r in xs && forall x :: x in xs ==> x <= r
  {
    if |xs| == 1 then xs[0]
    else
      assert xs == xs[..|xs| - 1] + [xs[|xs| - 1]];
      var m := MaxOf(xs[..|xs| - 1]);
      if xs[|xs| - 1] > m then xs[|xs| - 1] else m
  }

  /** `min` on a non-empty list of dates. */
  function EarliestOf(ds: seq<Date>): (r: Date)
    requires |ds| > 0
    ensures r in ds && forall d :: d in ds ==> DateLe(r, d)
  {
    if |ds| == 1 then ds[0]
    else
      assert ds == ds[..|ds| - 1] + [ds[|ds| - 1]];
      var m := EarliestOf(ds[..|ds| - 1]);
      if DateLt(ds[|ds| - 1], m) then ds[|ds| - 1] else DateLeTotal(m, ds[|ds| - 1]); m
  }

  /** `max` on a non-empty list of dates. */
  function LatestOf(ds: seq<Date>): (r: Date)
    requires |ds| > 0
    ensures r in ds && forall d :: d in ds ==> DateLe(d, r)
  {
    if |ds| == 1 then ds[0]
    else
      assert ds == ds[..|ds| - 1] + [ds[|ds| - 1]];
      var m := LatestOf(ds[..|ds| - 1]);
      if DateLt(m, ds[|ds| - 1]) then ds[|ds| - 1] else DateLeTotal(m, ds[|ds| - 1]); m
  }

  /** `tx.date.replace(day=1)` for each transaction. */
  function MonthStarts(s: seq<Transaction>): (r: seq<Date>)
    ensures |r| == |s|
    ensures forall i :: 0 <= i < |s| ==> r[i] == Date(s[i].date.year, s[i].date.month, 1)
  {
    seq(|s|, i requires 0 <= i < |s| => Date(s[i].date.year, s[i].date.month, 1))
  }

  predicate InMonth(t: Transaction, month: Date) {
    t.date.month == month.month && t.date.year == month.year
  }

  /** `month_tx`: the transactions of one calendar month, order kept. */
  function MonthTx(s: seq<Transaction>, month: Date): (r: seq<Transaction>)
    ensures forall t :: t in r <==> t in s && InMonth(t, month)
  {
    if |s| == 0 then []
    else
      assert s == s[..|s| - 1] + [s[|s| - 1]];
      MonthTx(s[..|s| - 1], month) + if InMonth(s[|s| - 1], month) then [s[|s| - 1]] else []
  }

  function MonthTotal(s: seq<Transaction>, subject: string, month: Date): real {
    Sum(Amounts(MonthTx(s, month), subject))
  }

  function MonthTotals(s: seq<Transaction>, subject: string, months: seq<Date>): (r: seq<real>)
    ensures |r| == |months|
    ensures forall j :: 0 <= j < |months| ==> r[j] == MonthTotal(s, subject, months[j])
  {
    seq(|months|, j requires 0 <= j < |months| => MonthTotal(s, subject, months[j]))
  }

  /** The figures `analyse` shows: total, median, minimum, maximum and count
      over the window, and one total per month of the month table. */
  datatype Stats = Stats(
    total: real, median: real, minimum: real, maximum: real, count: nat,
    months: seq<Date>, monthTotals: seq<real>)

  /** The figures for a non-empty window `w`. The median is the element at
      index `len // 2` of the sorted amounts (the upper median for an even
      count); the months run from the earliest to the latest month with a
      transaction. */
  function StatsOf(w: seq<Transaction>, subject: string): Stats
    requires |w| > 0
  {
    var a := Amounts(w, subject);
    var months := MonthSpan(EarliestOf(MonthStarts(w)), LatestOf(MonthStarts(w)));
    Stats(Sum(a), SortAscending(a)[|a| / 2], MinOf(a), MaxOf(a), |w|, months, MonthTotals(w, subject, months))
  }

  /** What `analyse` computes: nothing for an empty window (the source notifies
      and removes the widget), the figures otherwise. */
  function Report(withLabel: seq<Transaction>, subject: string, start: Option<Date>, end: Option<Date>): Option<Stats> {
    var w := Window(withLabel, start, end);
    if |w| == 0 then None else Some(StatsOf(w, subject))
  }

  predicate DatesValid(s: seq<Transaction>) {
    forall t :: t in s ==> ValidDate(t.date)
  }

  lemma SumSnoc(xs: seq<real>, x: real)
    ensures Sum(xs + [x]) == Sum(xs) + x
  {
    assert (xs + [x])[..|xs|] == xs;
  }

  /** `analyse`: the amounts and their total in one loop, median, minimum and
      maximum from the list, then one total per month of the month range. */
  method Analyse(ledger: Ledger, subject: string, start: Option<Date>, end: Option<Date>) returns (res: Option<Stats>)
    requires ledger.Valid() && DatesValid(ledger.transactions)
    ensures res == Report(ledger.GetAllTxWithLabel(subject), subject, start, end)
  {
    var withLabel := ledger.GetAllTxWithLabel(subject);
    var w := Window(withLabel, start, end);
    if |w| == 0 {
      return None;
    }
    assert DatesValid(w);
    var amounts, total := AmountsAndTotal(w, subject);
    var median := SortAscending(amounts)[|amounts| / 2];
    var minimum := MinOf(amounts);
    var maximum := MaxOf(amounts);

    var monthsWithTx := MonthStarts(w);
    var startMonth := EarliestOf(monthsWithTx);
    var endMonth := LatestOf(monthsWithTx);
    MonthStartsValid(w);
    var months := IterateMonths(startMonth, endMonth);
    var totals := MonthTable(w, subject, months);
    res := Some(Stats(total, median, minimum, maximum, |w|, months, totals));
  }

  /** The first loop of `analyse`: the list of amounts and their running total. */
  method AmountsAndTotal(w: seq<Transaction>, subject: string) returns (amounts: seq<real>, total: real)
    ensures amounts == Amounts(w, subject) && total == Sum(amounts)
  {
    total := 0.0;
    amounts := [];
    var i := 0;
    while i < |w|
      invariant 0 <= i <= |w|
      invariant amounts == Amounts(w[..i], subject)
      invariant total == Sum(amounts)
    {
      var amount := if subject in w[i].splits then w[i].splits[subject] else w[i].amount;
      AmountsSnoc(w, i, subject);
      SumSnoc(amounts, Abs(amount));
      amounts := amounts + [Abs(amount)];
      total := total + Abs(amount);
      i := i + 1;
    }
    assert w[..i] == w;
  }

  /** The loop of `analyse` over the generated months: one total per month, 0
      for a month without transactions. */
  method MonthTable(w: seq<Transaction>, subject: string, months: seq<Date>) returns (totals: seq<real>)
    ensures totals == MonthTotals(w, subject, months)
  {
    totals := [];
    var j := 0;
    while j < |months|
      invariant 0 <= j <= |months|
      invariant |totals| == j
      invariant forall q :: 0 <= q < j ==> totals[q] == MonthTotal(w, subject, months[q])
    {
      var monthTx := MonthTx(w, months[j]);
      var monthTotal := 0.0;
      if |monthTx| > 0 {
        monthTotal := MonthSum(monthTx, subject);
      }
      totals := totals + [monthTotal];
      j := j + 1;
    }
  }

  /** The inner loop adding up one month's amounts. */
  method MonthSum(monthTx: seq<Transaction>, subject: string) returns (monthTotal: real)
    ensures monthTotal == Sum(Amounts(monthTx, subject))
  {
    monthTotal := 0.0;
    var k := 0;
    while k < |monthTx|
      invariant 0 <= k <= |monthTx|
      invariant monthTotal == Sum(Amounts(monthTx[..k], subject))
    {
      AmountsSnoc(monthTx, k, subject);
      SumSnoc(Amounts(monthTx[..k], subject), SubjectAmount(monthTx[k], subject));
      if subject in monthTx[k].splits {
        monthTotal := monthTotal + Abs(monthTx[k].splits[subject]);
      } else {
        monthTotal := monthTotal + Abs(monthTx[k].amount);
      }
      k := k + 1;
    }
    assert monthTx[..k] == monthTx;
  }

  // ---------------------------------------------------------------------------
  // Properties of the figures

  /** The median of `analyse` is one of the amounts, lies between the minimum
      and the maximum, and splits the sorted amounts at index `len // 2`. */
  lemma MedianFacts(a: seq<real>)
    requires |a| > 0
    ensures SortAscending(a)[|a| / 2] in a
    ensures MinOf(a) <= SortAscending(a)[|a| / 2] <= MaxOf(a)
    ensures forall i :: 0 <= i < |a| / 2 ==> SortAscending(a)[i] <= SortAscending(a)[|a| / 2]
    ensures forall i :: |a| / 2 < i < |a| ==> SortAscending(a)[|a| / 2] <= SortAscending(a)[i]
  {
    var sorted := SortAscending(a);
    assert sorted[|a| / 2] in multiset(sorted);
    assert sorted[|a| / 2] in multiset(a);
  }

  /** No transaction of `s` falls in `month`. */
  predicate NoTxIn(s: seq<Transaction>, month: Date) {
    forall t :: t in s ==> !InMonth(t, month)
  }

  /** A month without transactions has a total of 0. */
  lemma {:induction false} EmptyMonthTotal(s: seq<Transaction>, subject: string, month: Date)
    requires NoTxIn(s, month)
    ensures MonthTx(s, month) == [] && MonthTotal(s, subject, month) == 0.0
  {
    if |s| > 0 {
      assert s[|s| - 1] in s;
      assert NoTxIn(s[..|s| - 1], month) by {
        assert forall t :: t in s[..|s| - 1] ==> t in s;
      }
      EmptyMonthTotal(s[..|s| - 1], subject, month);
    }
  }

  lemma MonthStartsValid(w: seq<Transaction>)
    requires |w| > 0 && DatesValid(w)
    ensures ValidDate(EarliestOf(MonthStarts(w))) && EarliestOf(MonthStarts(w)).day == 1
    ensures ValidDate(LatestOf(MonthStarts(w)))
    ensures forall i :: 0 <= i < |w| ==>
              MonthIndex(EarliestOf(MonthStarts(w))) <= MonthIndex(w[i].date) <= MonthIndex(LatestOf(MonthStarts(w)))
  {
    var ms := MonthStarts(w);
    var lo := EarliestOf(ms);
    var hi := LatestOf(ms);
    var k0 :| 0 <= k0 < |w| && ms[k0] == lo;
    var k1 :| 0 <= k1 < |w| && ms[k1] == hi;
    assert w[k0] in w && w[k1] in w;
    forall i | 0 <= i < |w| ensures MonthIndex(lo) <= MonthIndex(w[i].date) <= MonthIndex(hi) {
      assert w[i] in w && ms[i] in ms;
      FirstLeIndex(lo, ms[i]);
      FirstLeIndex(ms[i], hi);
    }
  }

  /** What one transaction adds to each month of `months`. */
  function Indicator(t: Transaction, subject: string, months: seq<Date>): (r: seq<real>)
    ensures |r| == |months|
    ensures forall j :: 0 <= j < |months| ==> r[j] == if InMonth(t, months[j]) then SubjectAmount(t, subject) else 0.0
  {
    seq(|months|, j requires 0 <= j < |months| => if InMonth(t, months[j]) then SubjectAmount(t, subject) else 0.0)
  }

  /** A transaction whose month is in the span falls in exactly one of its
      months. */
  lemma IndicatorSum(t: Transaction, subject: string, lo: Date, hi: Date)
    requires ValidDate(t.date) && MonthIndex(lo) <= MonthIndex(t.date) <= MonthIndex(hi)
    ensures Sum(Indicator(t, subject, MonthSpan(lo, hi))) == SubjectAmount(t, subject)
  {
    var ms := MonthSpan(lo, hi);
    var ind := Indicator(t, subject, ms);
    var j0 := MonthIndex(t.date) - MonthIndex(lo);
    FromIndexOf(t.date);
    assert ms[j0] == Date(t.date.year, t.date.month, 1);
    forall j | 0 <= j < |ms| && j != j0 ensures ind[j] == 0.0 {
      assert MonthIndex(ms[j]) != MonthIndex(t.date);
    }
    SumSingle(ind, j0);
  }

  lemma MonthTotalStep(p: seq<Transaction>, t: Transaction, subject: string, month: Date)
    ensures MonthTotal(p + [t], subject, month)
            == MonthTotal(p, subject, month) + if InMonth(t, month) then SubjectAmount(t, subject) else 0.0
  {
    var w := p + [t];
    assert w[..|w| - 1] == p;
    var x := MonthTx(p, month);
    if InMonth(t, month) {
      assert MonthTx(w, month) == x + [t];
      assert (x + [t])[..|x|] == x;
      assert Amounts(x + [t], subject) == Amounts(x, subject) + [SubjectAmount(t, subject)];
      SumSnoc(Amounts(x, subject), SubjectAmount(t, subject));
    } else {
      assert MonthTx(w, month) == x;
    }
  }

  /** One more transaction within the span adds its amount to the sum of the
      month totals. */
  lemma MonthTotalsSnoc(p: seq<Transaction>, t: Transaction, subject: string, lo: Date, hi: Date)
    requires ValidDate(t.date) && MonthIndex(lo) <= MonthIndex(t.date) <= MonthIndex(hi)
    ensures Sum(MonthTotals(p + [t], subject, MonthSpan(lo, hi)))
            == Sum(MonthTotals(p, subject, MonthSpan(lo, hi))) + SubjectAmount(t, subject)
  {
    var ms := MonthSpan(lo, hi);
    var ind := Indicator(t, subject, ms);
    forall j | 0 <= j < |ms|
      ensures MonthTotals(p + [t], subject, ms)[j] == MonthTotals(p, subject, ms)[j] + ind[j]
    {
      MonthTotalStep(p, t, subject, ms[j]);
    }
    SumPointwise(MonthTotals(p, subject, ms), ind, MonthTotals(p + [t], subject, ms));
    IndicatorSum(t, subject, lo, hi);
  }

  /** The month totals add up to the overall total: every transaction falls in
      exactly one month of a span that covers the months of all of them. */
  lemma {:induction false} MonthTotalsSum(w: seq<Transaction>, subject: string, lo: Date, hi: Date)
    requires DatesValid(w)
    requires forall i :: 0 <= i < |w| ==> MonthIndex(lo) <= MonthIndex(w[i].date) <= MonthIndex(hi)
    ensures Sum(MonthTotals(w, subject, MonthSpan(lo, hi))) == Sum(Amounts(w, subject))
  {
    if |w| == 0 {
      SumZero(MonthTotals(w, subject, MonthSpan(lo, hi)));
    } else {
      var p := w[..|w| - 1];
      var t := w[|w| - 1];
      assert w == p + [t];
      assert t in w;
      assert DatesValid(p) by {
        assert forall x :: x in p ==> x in w;
      }
      assert forall i :: 0 <= i < |p| ==> p[i] == w[i];
      MonthTotalsSum(p, subject, lo, hi);
      MonthTotalsSnoc(p, t, subject, lo, hi);
      assert Amounts(w, subject) == Amounts(p, subject) + [SubjectAmount(t, subject)];
      SumSnoc(Amounts(p, subject), SubjectAmount(t, subject));
    }
  }

  /** The figures of a non-empty window: the count is positive, the total is
      not negative, and the median lies between the minimum and the maximum. */
  lemma StatsFigures(w: seq<Transaction>, subject: string)
    requires |w| > 0
    ensures StatsOf(w, subject).count > 0 && StatsOf(w, subject).total >= 0.0
    ensures StatsOf(w, subject).minimum <= StatsOf(w, subject).median <= StatsOf(w, subject).maximum
  {
    var a := Amounts(w, subject);
    SumNonNegative(a);
    MedianFacts(a);
  }

  /** The month table lists the month of every transaction of the window. */
  lemma StatsMonthsCover(w: seq<Transaction>, subject: string)
    requires |w| > 0 && DatesValid(w)
    ensures forall t :: t in w ==> Date(t.date.year, t.date.month, 1) in StatsOf(w, subject).months
  {
    var ms := MonthStarts(w);
    var lo := EarliestOf(ms);
    var hi := LatestOf(ms);
    MonthStartsValid(w);
    MonthSpanShape(lo, hi);
    var months := StatsOf(w, subject).months;
    assert months == MonthSpan(lo, hi);
    forall t | t in w ensures Date(t.date.year, t.date.month, 1) in months {
      var i :| 0 <= i < |w| && w[i] == t;
      FirstLeIndex(lo, ms[i]);
      FirstLeIndex(ms[i], hi);
    }
  }

  /** The month table holds 0 for each month without a transaction, and its
      totals add up to the overall total. */
  lemma StatsMonthTotals(w: seq<Transaction>, subject: string)
    requires |w| > 0 && DatesValid(w)
    ensures forall j :: 0 <= j < |StatsOf(w, subject).months| && NoTxIn(w, StatsOf(w, subject).months[j]) ==>
              StatsOf(w, subject).monthTotals[j] == 0.0
    ensures Sum(StatsOf(w, subject).monthTotals) == StatsOf(w, subject).total
  {
    var st := StatsOf(w, subject);
    var ms := MonthStarts(w);
    MonthStartsValid(w);
    forall j | 0 <= j < |st.months| && NoTxIn(w, st.months[j]) ensures st.monthTotals[j] == 0.0 {
      EmptyMonthTotal(w, subject, st.months[j]);
    }
    MonthTotalsSum(w, subject, EarliestOf(ms), LatestOf(ms));
  }
}
