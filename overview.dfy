/** The overview of moneyterm/widgets/overviewwidget.py: the transactions of the
    chosen scope grouped by their income labels and by their bill labels, each
    grouping shown as a table with a total per source and a grand total. */
module Overview {
  import opened Common
  import opened OrderedDict
  import opened Ledger

  /** The scope of `update_tables`: no account means everything; an account
      without a year, the account; with a year but no month, that year; all
      three, that month. */
  function ScopeOf(account: Option<string>, year: Option<int>, month: Option<int>): (sc: Scope)
    ensures account.None? <==> sc.Everything?
    ensures account.Some? && year.None? <==> sc.OfAccount?
    ensures account.Some? && year.Some? && month.None? <==> sc.OfYear?
    ensures account.Some? && year.Some? && month.Some? <==> sc.OfMonth?
    ensures !sc.Everything? ==> sc.acct == account.value
    ensures sc.OfYear? || sc.OfMonth? ==> sc.year == year.value
    ensures sc.OfMonth? ==> sc.month == month.value
  {
    if account.None? then Everything
    else if year.None? then OfAccount(account.value)
    else if month.None? then OfYear(account.value, year.value)
    else OfMonth(account.value, year.value, month.value)
  }

  /** The labels a transaction is grouped under for a kind: its auto labels of
      the kind, then its manual ones. */
  function Sources(t: Transaction, k: Kind): seq<string> {
    t.auto.Of(k) + t.manual.Of(k)
  }

  /** `income_tx_by_source` / `bill_tx_by_source`: label to transactions, in
      the order the labels were first met. */
  type Groups = Dict<seq<Transaction>>

  /** `by_source[label].append(t)`, creating the list first when the label is
      new. */
  function Append(g: Groups, l: string, t: Transaction): Groups {
    Put(g, l, Get(g, l).GetOr([]) + [t])
  }

  /** The inner loop: `t` appended under each label of `ls` in turn. */
  function AddSources(g: Groups, t: Transaction, ls: seq<string>): Groups {
    if |ls| == 0 then g else Append(AddSources(g, t, ls[..|ls| - 1]), ls[|ls| - 1], t)
  }

  /** The outer loop over the transactions, for one kind. */
  function Grouped(txs: seq<Transaction>, k: Kind): Groups {
    if |txs| == 0 then [] else AddSources(Grouped(txs[..|txs| - 1], k), txs[|txs| - 1], Sources(txs[|txs| - 1], k))
  }

  function Repeat(t: Transaction, n: nat): (r: seq<Transaction>)
    ensures |r| == n && forall i :: 0 <= i < n ==> r[i] == t
  {
    if n == 0 then [] else Repeat(t, n - 1) + [t]
  }

  /** The transactions of `txs` a label collects, in order: each once for
      every time the label occurs among its sources. */
  function Hits(txs: seq<Transaction>, k: Kind, l: string): seq<Transaction> {
    if |txs| == 0 then []
    else Hits(txs[..|txs| - 1], k, l) + Repeat(txs[|txs| - 1], multiset(Sources(txs[|txs| - 1], k))[l])
  }

  lemma AppendGet(g: Groups, x: string, t: Transaction, l: string)
    ensures Get(Append(g, x, t), l).GetOr([]) == Get(g, l).GetOr([]) + if x == l then [t] else []
    ensures l in Keys(Append(g, x, t)) <==> l in Keys(g) || l == x
  {
  }

  lemma RepeatSnoc(before: seq<Transaction>, t: Transaction, n: nat)
    ensures (before + Repeat(t, n)) + [t] == before + Repeat(t, n + 1)
  {
    var r := Repeat(t, n);
    assert Repeat(t, n + 1) == r + [t];
    assert (before + r) + [t] == before + (r + [t]);
  }

  lemma CountSnoc(init: seq<string>, x: string, l: string)
    ensures multiset(init + [x])[l] == multiset(init)[l] + if x == l then 1 else 0
  {
    assert multiset(init + [x]) == multiset(init) + multiset{x};
  }

  /** One more label appended to the inner loop's list of labels. */
  lemma AppendRepeat(h: Groups, x: string, t: Transaction, l: string, before: seq<Transaction>, init: seq<string>)
    requires Get(h, l).GetOr([]) == before + Repeat(t, multiset(init)[l])
    ensures Get(Append(h, x, t), l).GetOr([]) == before + Repeat(t, multiset(init + [x])[l])
  {
    AppendGet(h, x, t, l);
    CountSnoc(init, x, l);
    if x == l {
      RepeatSnoc(before, t, multiset(init)[l]);
    }
  }

  lemma {:induction false} AddSourcesGet(g: Groups, t: Transaction, ls: seq<string>, l: string)
    ensures Get(AddSources(g, t, ls), l).GetOr([]) == Get(g, l).GetOr([]) + Repeat(t, multiset(ls)[l])
    ensures l in Keys(AddSources(g, t, ls)) <==> l in Keys(g) || l in ls
  {
    if |ls| == 0 {
      assert Get(g, l).GetOr([]) + Repeat(t, 0) == Get(g, l).GetOr([]);
    } else {
      var init := ls[..|ls| - 1];
      var x := ls[|ls| - 1];
      assert ls == init + [x];
      AddSourcesGet(g, t, init, l);
      var h := AddSources(g, t, init);
      assert AddSources(g, t, ls) == Append(h, x, t);
      AppendRepeat(h, x, t, l, Get(g, l).GetOr([]), init);
      AppendGet(h, x, t, l);
    }
  }

  /** Each label's list holds exactly the transactions carrying it, in the
      order of the scope, one entry per occurrence of the label among its
      sources (a transaction listed twice in a group counts twice); a label is
      a key exactly when it collected something. */
  lemma {:induction false} GroupedCharacterised(txs: seq<Transaction>, k: Kind, l: string)
    ensures Get(Grouped(txs, k), l).GetOr([]) == Hits(txs, k, l)
    ensures l in Keys(Grouped(txs, k)) <==> Hits(txs, k, l) != []
  {
    if |txs| > 0 {
      var t := txs[|txs| - 1];
      GroupedCharacterised(txs[..|txs| - 1], k, l);
      AddSourcesGet(Grouped(txs[..|txs| - 1], k), t, Sources(t, k), l);
      assert l in Sources(t, k) <==> multiset(Sources(t, k))[l] > 0;
    }
  }

  /** A label collects something exactly when some transaction of the scope
      has it among its sources of the kind. */
  lemma {:induction false} HitsNonEmpty(txs: seq<Transaction>, k: Kind, l: string)
    ensures Hits(txs, k, l) != [] <==> exists t :: t in txs && l in Sources(t, k)
  {
    if |txs| > 0 {
      var t := txs[|txs| - 1];
      var init := txs[..|txs| - 1];
      assert txs == init + [t];
      HitsNonEmpty(init, k, l);
      assert l in Sources(t, k) <==> multiset(Sources(t, k))[l] > 0;
      if exists u :: u in txs && l in Sources(u, k) {
        var u :| u in txs && l in Sources(u, k);
        if u != t {
          assert u in init;
        }
      }
    }
  }

  // ---------------------------------------------------------------------------
  // Totals

  function AmountSum(ts: seq<Transaction>): real {
    if |ts| == 0 then 0.0 else AmountSum(ts[..|ts| - 1]) + ts[|ts| - 1].amount
  }

  /** The sum over every list of the grouping: the `Total` row. */
  function GroupsTotal(g: seq<(string, seq<Transaction>)>): real {
    if |g| == 0 then 0.0 else GroupsTotal(g[..|g| - 1]) + AmountSum(g[|g| - 1].1)
  }

  /** `x` added `n` times. */
  function Times(n: nat, x: real): (r: real)
    ensures r == (n as real) * x
  {
    if n == 0 then 0.0 else Times(n - 1, x) + x
  }

  /** Each transaction's amount counted once per occurrence of a source label. */
  function Weighted(txs: seq<Transaction>, k: Kind): real {
    if |txs| == 0 then 0.0
    else Weighted(txs[..|txs| - 1], k) + Times(|Sources(txs[|txs| - 1], k)|, txs[|txs| - 1].amount)
  }

  lemma AmountSumSnoc(ts: seq<Transaction>, t: Transaction)
    ensures AmountSum(ts + [t]) == AmountSum(ts) + t.amount
  {
    assert (ts + [t])[..|ts|] == ts;
  }

  /** Replacing one list of the grouping changes the total by the difference. */
  lemma {:induction false} GroupsTotalUpdate(g: seq<(string, seq<Transaction>)>, i: nat, e: (string, seq<Transaction>))
    requires i < |g|
    ensures GroupsTotal(g[i := e]) == GroupsTotal(g) - AmountSum(g[i].1) + AmountSum(e.1)
  {
    var n := |g| - 1;
    if i < n {
      assert g[i := e][..n] == g[..n][i := e];
      GroupsTotalUpdate(g[..n], i, e);
    } else {
      assert g[i := e][..n] == g[..n];
    }
  }

  lemma GroupsTotalSnoc(g: seq<(string, seq<Transaction>)>, e: (string, seq<Transaction>))
    ensures GroupsTotal(g + [e]) == GroupsTotal(g) + AmountSum(e.1)
  {
    assert (g + [e])[..|g|] == g;
  }

  lemma AppendTotal(g: Groups, l: string, t: Transaction)
    ensures GroupsTotal(Append(g, l, t)) == GroupsTotal(g) + t.amount
  {
    var v := Get(g, l).GetOr([]);
    AmountSumSnoc(v, t);
    if l in Keys(g) {
      var i := IndexOf(g, l);
      assert Append(g, l, t) == g[i := (l, v + [t])];
      GroupsTotalUpdate(g, i, (l, v + [t]));
    } else {
      assert Append(g, l, t) == g + [(l, v + [t])];
      GroupsTotalSnoc(g, (l, v + [t]));
    }
  }

  lemma {:induction false} AddSourcesTotal(g: Groups, t: Transaction, ls: seq<string>)
    ensures GroupsTotal(AddSources(g, t, ls)) == GroupsTotal(g) + Times(|ls|, t.amount)
  {
    if |ls| > 0 {
      var init := ls[..|ls| - 1];
      AddSourcesTotal(g, t, init);
      var h := AddSources(g, t, init);
      assert AddSources(g, t, ls) == Append(h, ls[|ls| - 1], t);
      AppendTotal(h, ls[|ls| - 1], t);
    }
  }

  /** The grand total of a grouping is the sum of the amounts of the scope's
      transactions, each counted once per source label it is grouped under. */
  lemma {:induction false} GroupedTotal(txs: seq<Transaction>, k: Kind)
    ensures GroupsTotal(Grouped(txs, k)) == Weighted(txs, k)
  {
    if |txs| > 0 {
      var t := txs[|txs| - 1];
      var p := txs[..|txs| - 1];
      GroupedTotal(p, k);
      var h := Grouped(p, k);
      assert Grouped(txs, k) == AddSources(h, t, Sources(t, k));
      AddSourcesTotal(h, t, Sources(t, k));
    }
  }

  // ---------------------------------------------------------------------------
  // The table

  /** A row of a table: a transaction (the source label shown on the first row
      of its group only), a source total, the grand total, or the `None` row of
      an empty table. */
  datatype Line =
    | TxLine(source: string, date: Date, amount: real)
    | SourceTotalLine(source: string, total: real)
    | TotalLine(total: real)
    | NoneLine

  function TxLines(l: string, ts: seq<Transaction>): (r: seq<Line>)
    ensures |r| == |ts|
    ensures forall i :: 0 <= i < |ts| ==> r[i] == TxLine(if i == 0 then l else "", ts[i].date, ts[i].amount)
  {
    seq(|ts|, i requires 0 <= i < |ts| => TxLine(if i == 0 then l else "", ts[i].date, ts[i].amount))
  }

  /** The rows of one source: its transactions, then its total when it has
      more than one. */
  function GroupLines(l: string, ts: seq<Transaction>): seq<Line> {
    TxLines(l, ts) + if |ts| > 1 then [SourceTotalLine(l, AmountSum(ts))] else []
  }

  function BodyLines(g: seq<(string, seq<Transaction>)>): seq<Line> {
    if |g| == 0 then [] else BodyLines(g[..|g| - 1]) + GroupLines(g[|g| - 1].0, g[|g| - 1].1)
  }

  /** `make_table`: the `None` row for an empty grouping, otherwise every
      source's rows followed by the grand total. */
  function TableLines(g: Groups): seq<Line> {
    if |g| == 0 then [NoneLine] else BodyLines(g) + [TotalLine(GroupsTotal(g))]
  }

  /** A source's total line is one of the group's own lines, never one of its
      transaction lines. */
  lemma GroupTotalLine(l: string, ts: seq<Transaction>, m: string, x: real)
    ensures SourceTotalLine(m, x) in GroupLines(l, ts) <==> m == l && |ts| > 1 && x == AmountSum(ts)
  {
    assert SourceTotalLine(m, x) !in TxLines(l, ts);
  }

  /** A source total row appears for every source with more than one
      transaction, carrying the sum of its amounts. */
  lemma {:induction false} SourceTotalsComplete(g: seq<(string, seq<Transaction>)>)
    ensures forall i :: 0 <= i < |g| && |g[i].1| > 1 ==> SourceTotalLine(g[i].0, AmountSum(g[i].1)) in BodyLines(g)
  {
    if |g| > 0 {
      var n := |g| - 1;
      SourceTotalsComplete(g[..n]);
      assert BodyLines(g) == BodyLines(g[..n]) + GroupLines(g[n].0, g[n].1);
      forall i | 0 <= i < |g| && |g[i].1| > 1 ensures SourceTotalLine(g[i].0, AmountSum(g[i].1)) in BodyLines(g) {
        if i < n {
          assert g[..n][i] == g[i];
        } else {
          GroupTotalLine(g[n].0, g[n].1, g[i].0, AmountSum(g[i].1));
        }
      }
    }
  }

  /** Every source total row belongs to a source with more than one
      transaction and carries the sum of its amounts. */
  lemma {:induction false} SourceTotalsSound(g: seq<(string, seq<Transaction>)>)
    ensures forall l, x :: SourceTotalLine(l, x) in BodyLines(g) ==>
              exists i :: 0 <= i < |g| && g[i].0 == l && |g[i].1| > 1 && x == AmountSum(g[i].1)
  {
    if |g| > 0 {
      var n := |g| - 1;
      SourceTotalsSound(g[..n]);
      assert BodyLines(g) == BodyLines(g[..n]) + GroupLines(g[n].0, g[n].1);
      forall l, x | SourceTotalLine(l, x) in BodyLines(g)
        ensures exists i :: 0 <= i < |g| && g[i].0 == l && |g[i].1| > 1 && x == AmountSum(g[i].1)
      {
        if SourceTotalLine(l, x) in BodyLines(g[..n]) {
          var i :| 0 <= i < n && g[..n][i].0 == l && |g[..n][i].1| > 1 && x == AmountSum(g[..n][i].1);
          assert g[i] == g[..n][i];
        } else {
          GroupTotalLine(g[n].0, g[n].1, l, x);
        }
      }
    }
  }

  /** The table of a grouping: a lone `None` row when it is empty; otherwise
      its last row is the grand total, which is the scope's amounts weighted
      by how many times each transaction is grouped. */
  lemma TableOfGrouping(txs: seq<Transaction>, k: Kind)
    ensures Grouped(txs, k) == [] ==> TableLines(Grouped(txs, k)) == [NoneLine]
    ensures Grouped(txs, k) != [] ==> TableLines(Grouped(txs, k))[|TableLines(Grouped(txs, k))| - 1] == TotalLine(Weighted(txs, k))
  {
    GroupedTotal(txs, k);
  }

  // ---------------------------------------------------------------------------
  // The loops

  /** The grouping loop of `update_tables`: each transaction is appended under
      each of its income labels, then under each of its bill labels. */
  method GroupBySource(txs: seq<Transaction>) returns (incomes: Groups, bills: Groups)
    ensures incomes == Grouped(txs, Incomes) && bills == Grouped(txs, Bills)
  {
    incomes := [];
    bills := [];
    var i := 0;
    while i < |txs|
      invariant 0 <= i <= |txs|
      invariant incomes == Grouped(txs[..i], Incomes) && bills == Grouped(txs[..i], Bills)
    {
      var t := txs[i];
      assert txs[..i + 1][..i] == txs[..i];
      incomes := AddAll(incomes, t, t.auto.incomes + t.manual.incomes);
      bills := AddAll(bills, t, t.auto.bills + t.manual.bills);
      i := i + 1;
    }
    assert txs[..i] == txs;
  }

  /** One inner loop: `t` appended under each label of `ls`. */
  method AddAll(g: Groups, t: Transaction, ls: seq<string>) returns (r: Groups)
    ensures r == AddSources(g, t, ls)
  {
    r := g;
    var j := 0;
    while j < |ls|
      invariant 0 <= j <= |ls|
      invariant r == AddSources(g, t, ls[..j])
    {
      assert ls[..j + 1][..j] == ls[..j];
      var l := ls[j];
      var list := if l in Keys(r) then Get(r, l).value else [];
      r := Put(r, l, list + [t]);
      j := j + 1;
    }
    assert ls[..j] == ls;
  }

  /** `make_table`: the running grand total and each source's running total. */
  method MakeTable(g: Groups) returns (lines: seq<Line>)
    ensures lines == TableLines(g)
  {
    if |g| == 0 {
      return [NoneLine];
    }
    var total := 0.0;
    lines := [];
    var s := 0;
    while s < |g|
      invariant 0 <= s <= |g|
      invariant lines == BodyLines(g[..s]) && total == GroupsTotal(g[..s])
    {
      assert g[..s + 1][..s] == g[..s];
      var source := g[s].0;
      var ts := g[s].1;
      var sourceTotal := 0.0;
      var rows: seq<Line> := [];
      var i := 0;
      while i < |ts|
        invariant 0 <= i <= |ts|
        invariant rows == TxLines(source, ts[..i]) && sourceTotal == AmountSum(ts[..i])
        invariant total == GroupsTotal(g[..s]) + sourceTotal
      {
        assert ts[..i + 1][..i] == ts[..i];
        total := total + ts[i].amount;
        sourceTotal := sourceTotal + ts[i].amount;
        rows := rows + [TxLine(if i == 0 then source else "", ts[i].date, ts[i].amount)];
        i := i + 1;
      }
      assert ts[..i] == ts;
      if |ts| > 1 {
        rows := rows + [SourceTotalLine(source, sourceTotal)];
      }
      lines := lines + rows;
      s := s + 1;
    }
    assert g[..s] == g;
    lines := lines + [TotalLine(total)];
  }

  /** The overview widget: its ledger, the scope last shown and the two
      tables. */
  class OverviewWidget {
    const ledger: Ledger
    var account: Option<string>
    var year: Option<int>
    var month: Option<int>
    var incomeTable: seq<Line>
    var billTable: seq<Line>

    constructor (l: Ledger)
      ensures ledger == l && account == None && year == None && month == None
      ensures incomeTable == [] && billTable == []
    {
      ledger := l;
      account := None;
      year := None;
      month := None;
      incomeTable := [];
      billTable := [];
    }

    /** The ledger query `update_tables` makes for its scope. */
    method ScopeTransactions(account': Option<string>, year': Option<int>, month': Option<int>) returns (transactions: seq<Transaction>)
      requires ledger.Valid()
      requires ScopeOf(account', year', month').OfMonth? ==> 1 <= month'.value <= 12
      ensures transactions == SortByDate(Select(ledger.transactions, ScopeOf(account', year', month')))
    {
      if account'.None? {
        transactions := ledger.GetAllTx();
      } else if year'.None? {
        transactions := ledger.GetTxByAccount(account'.value);
      } else if month'.None? {
        transactions := ledger.GetTxByYear(account'.value, year'.value);
      } else {
        transactions := ledger.GetTxByMonth(account'.value, year'.value, month'.value).value;
      }
    }

    /** `update_tables`: the scope's transactions by date, grouped by income
        and by bill labels, each grouping made into its table. A month outside
        1..12 is not offered by the scope bar (the ledger raises on it). */
    method UpdateTables(account': Option<string>, year': Option<int>, month': Option<int>)
      requires ledger.Valid()
      requires ScopeOf(account', year', month').OfMonth? ==> 1 <= month'.value <= 12
      modifies this
      ensures account == account' && year == year' && month == month'
      ensures var txs := SortByDate(Select(ledger.transactions, ScopeOf(account', year', month')));
              incomeTable == TableLines(Grouped(txs, Incomes)) && billTable == TableLines(Grouped(txs, Bills))
    {
      var transactions := ScopeTransactions(account', year', month');
      var incomes, bills := GroupBySource(transactions);
      var incomeLines := MakeTable(incomes);
      var billLines := MakeTable(bills);
      account, year, month := account', year', month';
      incomeTable, billTable := incomeLines, billLines;
    }

    /** `refresh_tables`: the tables again for the same scope. */
    method RefreshTables()
      requires ledger.Valid()
      requires ScopeOf(account, year, month).OfMonth? ==> 1 <= month.value <= 12
      modifies this
      ensures account == old(account) && year == old(year) && month == old(month)
      ensures var txs := SortByDate(Select(ledger.transactions, ScopeOf(account, year, month)));
              incomeTable == TableLines(Grouped(txs, Incomes)) && billTable == TableLines(Grouped(txs, Bills))
    {
      UpdateTables(account, year, month);
    }
  }
}
