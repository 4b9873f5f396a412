/** The budgets of moneyterm/widgets/budgeter.py: a monthly budget per expense
    label, edited through the builder (`BudgetBuilder`) and shown in a table
    of what was spent against each budget this month and last month
    (`Budgeter.update_budgets_table`). */
module Budgeter {
  import opened Common
  import opened Text
  import opened OrderedDict
  import opened Ledger
  import Trends

  /** `validate_amount_is_decimal_or_blank`: an empty input, or a decimal that
      is not negative. */
  function ValidateAmountIsDecimalOrBlank(amount: Entry<real>): (ok: bool)
    ensures ok <==> amount.Blank? || (amount.Given? && amount.value >= 0.0)
    ensures ok ==> !amount.Malformed?
  {
    match amount
    case Blank => true
    case Malformed => false
    case Given(v) => v >= 0.0
  }

  /** Each budget is the one-entry dictionary `{"monthly_budget": text}`; the
      model keeps the text. */
  type Budgets = Dict<Entry<real>>

  predicate BudgetsValid(b: Budgets) {
    forall e :: e in b ==> ValidateAmountIsDecimalOrBlank(e.1)
  }

  /** What a transaction spends from the budget of `category`: its split for
      the category as stored, or else the absolute value of its amount. */
  function Spending(t: Transaction, category: string): real {
    if category in t.splits then t.splits[category] else Abs(t.amount)
  }

  function Spent(s: seq<Transaction>, category: string): real {
    if |s| == 0 then 0.0 else Spent(s[..|s| - 1], category) + Spending(s[|s| - 1], category)
  }

  lemma SpentSnoc(s: seq<Transaction>, i: nat, category: string)
    requires i < |s|
    ensures Spent(s[..i + 1], category) == Spent(s[..i], category) + Spending(s[i], category)
  {
    assert s[..i + 1][..i] == s[..i];
  }

  /** The splits that the split screen stores are never negative. */
  predicate SplitsNonNegative(s: seq<Transaction>, category: string) {
    forall t :: t in s && category in t.splits ==> t.splits[category] >= 0.0
  }

  /** With splits that are not negative, what a budget counts as spent in a
      month is the same figure as the month's total in the trend analysis,
      which takes the absolute value of the split as well: the two views
      agree. */
  lemma {:induction false} SpentIsTrendTotal(s: seq<Transaction>, category: string)
    requires SplitsNonNegative(s, category)
    ensures Spent(s, category) == Trends.Sum(Trends.Amounts(s, category))
    ensures Spent(s, category) >= 0.0
  {
    if |s| > 0 {
      var p := s[..|s| - 1];
      assert s[|s| - 1] in s;
      assert SplitsNonNegative(p, category) by {
        assert forall t :: t in p ==> t in s;
      }
      SpentIsTrendTotal(p, category);
    }
  }

  /** The transactions of a month that carry the label, as
      `get_budget_stats_for_month` selects them. */
  function MonthSpending(txs: seq<Transaction>, category: string, month: int, year: int): seq<Transaction> {
    Trends.MonthTx(WithLabel(txs, category), Date(year, month, 1))
  }

  /** `get_budget_stats_for_month`: spent and remaining for one label and
      month; the transactions come from `get_all_tx_with_label`. */
  method GetBudgetStatsForMonth(ledger: Ledger, month: int, year: int, category: string, budget: real)
    returns (spent: real, remaining: real)
    requires ledger.Valid()
    ensures spent == Spent(MonthSpending(ledger.transactions, category, month, year), category)
    ensures remaining == budget - spent
  {
    var transactions := ledger.GetAllTxWithLabel(category);
    var current := Trends.MonthTx(transactions, Date(year, month, 1));
    spent := 0.0;
    var i := 0;
    while i < |current|
      invariant 0 <= i <= |current|
      invariant spent == Spent(current[..i], category)
    {
      SpentSnoc(current, i, category);
      if category in current[i].splits {
        spent := spent + current[i].splits[category];
      } else {
        spent := spent + Abs(current[i].amount);
      }
      i := i + 1;
    }
    assert current[..i] == current;
    remaining := budget - spent;
  }

  /** `datetime.now() - relativedelta(months=1)`, as a month and year. */
  function PreviousMonth(month: int, year: int): (r: (int, int))
    requires 1 <= month <= 12
    ensures 1 <= r.0 <= 12
    ensures r.1 * 12 + r.0 == year * 12 + month - 1
  {
    if month == 1 then (12, year - 1) else (month - 1, year)
  }

  /** One line of the budgets table. */
  datatype Row = Row(
    category: string, budget: real, spent: real, remaining: real,
    lastMonthSpent: real, lastMonthRemaining: real)

  /** The line of a category whose budget is `budget`. */
  function RowFor(txs: seq<Transaction>, category: string, budget: real, month: int, year: int): Row
    requires 1 <= month <= 12
  {
    var last := PreviousMonth(month, year);
    var spent := Spent(MonthSpending(txs, category, month, year), category);
    var lastSpent := Spent(MonthSpending(txs, category, last.0, last.1), category);
    Row(category, budget, spent, budget - spent, lastSpent, budget - lastSpent)
  }

  /** The lines for the categories `cats` in order, skipping a blank budget. */
  function TableRows(txs: seq<Transaction>, b: Budgets, cats: seq<string>, month: int, year: int): seq<Row>
    requires 1 <= month <= 12
  {
    if |cats| == 0 then []
    else
      var init := TableRows(txs, b, cats[..|cats| - 1], month, year);
      var c := cats[|cats| - 1];
      if HasAmount(b, c) then init + [RowFor(txs, c, Get(b, c).value.value, month, year)] else init
  }

  function Categories(rows: seq<Row>): (r: seq<string>)
    ensures |r| == |rows|
    ensures forall i :: 0 <= i < |rows| ==> r[i] == rows[i].category
  {
    seq(|rows|, i requires 0 <= i < |rows| => rows[i].category)
  }

  /** The budget of `c` is set to an amount. */
  predicate HasAmount(b: Budgets, c: string) {
    Get(b, c).Some? && Get(b, c).value.Given?
  }

  /** Each line carries the listed category's budget amount, and what remains
      of it this month and last month. */
  lemma {:induction false} TableRowsCarry(txs: seq<Transaction>, b: Budgets, cats: seq<string>, month: int, year: int)
    requires 1 <= month <= 12
    ensures forall i :: 0 <= i < |TableRows(txs, b, cats, month, year)| ==>
              var row := TableRows(txs, b, cats, month, year)[i];
              row.category in cats && Get(b, row.category) == Some(Given(row.budget))
              && row.remaining == row.budget - row.spent && row.lastMonthRemaining == row.budget - row.lastMonthSpent
  {
    if |cats| > 0 {
      var init := cats[..|cats| - 1];
      TableRowsCarry(txs, b, init, month, year);
      assert forall x :: x in init ==> x in cats;
    }
  }

  /** A line appears for a category exactly when it is listed and has a budget
      amount. */
  lemma {:induction false} TableRowsCategories(txs: seq<Transaction>, b: Budgets, cats: seq<string>, month: int, year: int)
    requires 1 <= month <= 12
    ensures forall c :: c in Categories(TableRows(txs, b, cats, month, year)) <==> c in cats && HasAmount(b, c)
  {
    if |cats| > 0 {
      var init := cats[..|cats| - 1];
      var c := cats[|cats| - 1];
      assert cats == init + [c];
      TableRowsCategories(txs, b, init, month, year);
      var before := TableRows(txs, b, init, month, year);
      if HasAmount(b, c) {
        var rows := before + [RowFor(txs, c, Get(b, c).value.value, month, year)];
        assert Categories(rows) == Categories(before) + [c];
      }
    }
  }

  /** The lines keep the order of the list. */
  lemma {:induction false} TableRowsSorted(txs: seq<Transaction>, b: Budgets, cats: seq<string>, month: int, year: int)
    requires 1 <= month <= 12
    requires Sorted(Exact, cats)
    ensures Sorted(Exact, Categories(TableRows(txs, b, cats, month, year)))
  {
    if |cats| > 0 {
      var init := cats[..|cats| - 1];
      var c := cats[|cats| - 1];
      assert Sorted(Exact, init);
      TableRowsSorted(txs, b, init, month, year);
      TableRowsCategories(txs, b, init, month, year);
      var before := TableRows(txs, b, init, month, year);
      if HasAmount(b, c) {
        var rows := before + [RowFor(txs, c, Get(b, c).value.value, month, year)];
        assert Categories(rows) == Categories(before) + [c];
        forall i, j | 0 <= i < j < |rows| ensures Before(Exact, Categories(rows)[i], Categories(rows)[j]) {
          if j == |rows| - 1 {
            assert Categories(before)[i] in Categories(before);
            var m :| 0 <= m < |init| && init[m] == Categories(before)[i];
            assert cats[m] == init[m];
          }
        }
      }
    }
  }

  /** The budgets widget: the budgets dictionary shared by the builder and the
      table, the builder's selected category and amount input, and whether its
      save button is disabled. */
  class Budgeter {
    const ledger: Ledger
    var budgets: Budgets
    var selectedCategory: Option<string>
    var budgetInput: Entry<real>
    var saveDisabled: bool

    /** Saved amounts all passed the validator, and the save button is
        disabled exactly while the input fails it. */
    ghost predicate Valid()
      reads this
    {
      BudgetsValid(budgets) && saveDisabled == !ValidateAmountIsDecimalOrBlank(budgetInput)
    }

    /** `on_mount`: the budgets read from the file, or none when it is missing
        or does not parse. */
    constructor (l: Ledger, loaded: Option<Budgets>)
      requires loaded.Some? ==> BudgetsValid(loaded.value)
      ensures Valid()
      ensures ledger == l && budgets == (if loaded.Some? then loaded.value else [])
      ensures selectedCategory == None && budgetInput == Blank && !saveDisabled
    {
      ledger := l;
      budgets := if loaded.Some? then loaded.value else [];
      selectedCategory := None;
      budgetInput := Blank;
      saveDisabled := false;
    }

    /** `on_category_select_change` and `watch_selected_category`: the input
        is cleared when the selection is cleared and shows the saved amount of a
        category that has one; the save button follows the input's validation. */
    method SelectCategory(category: Option<string>)
      requires Valid()
      modifies this
      ensures Valid()
      ensures selectedCategory == category && budgets == old(budgets)
      ensures category.None? ==> budgetInput == Blank
      ensures category.Some? && category.value in Keys(budgets) ==> budgetInput == Get(budgets, category.value).value
      ensures category.Some? && category.value !in Keys(budgets) ==> budgetInput == old(budgetInput)
    {
      selectedCategory := category;
      if category.None? {
        budgetInput := Blank;
      } else if category.value in Keys(budgets) {
        var i := IndexOf(budgets, category.value);
        assert budgets[i] in budgets;
        budgetInput := Get(budgets, category.value).value;
      }
      saveDisabled := !ValidateAmountIsDecimalOrBlank(budgetInput);
    }

    /** `on_monthly_budget_input_change`. */
    method InputChanged(value: Entry<real>)
      requires Valid()
      modifies this
      ensures Valid()
      ensures budgetInput == value && saveDisabled == !ValidateAmountIsDecimalOrBlank(value)
      ensures budgets == old(budgets) && selectedCategory == old(selectedCategory)
    {
      budgetInput := value;
      saveDisabled := !ValidateAmountIsDecimalOrBlank(value);
    }

    /** `on_save_budgets_button_press`, which the disabled button does not
        reach: without a selected category nothing changes, otherwise the
        category's budget becomes the input, in place or appended. */
    method OnSaveBudgetsButtonPress() returns (saved: bool)
      requires Valid() && !saveDisabled
      modifies this
      ensures Valid()
      ensures saved <==> old(selectedCategory).Some?
      ensures !saved ==> budgets == old(budgets)
      ensures saved ==> budgets == Put(old(budgets), old(selectedCategory).value, old(budgetInput))
      ensures saved ==> Get(budgets, old(selectedCategory).value) == Some(old(budgetInput))
      ensures selectedCategory == old(selectedCategory) && budgetInput == old(budgetInput)
    {
      if selectedCategory.None? {
        return false;
      }
      budgets := Put(budgets, selectedCategory.value, budgetInput);
      saved := true;
    }

    /** `handle_category_renamed`: the budget of `from`, if any, moves to `to`
        with its amount unchanged; other budgets keep theirs. */
    method HandleCategoryRenamed(from: string, to: string)
      requires Valid()
      modifies this
      ensures Valid()
      ensures from !in Keys(old(budgets)) ==> budgets == old(budgets)
      ensures from in Keys(old(budgets)) ==> Get(budgets, to) == Get(old(budgets), from)
      ensures from in Keys(old(budgets)) && from != to ==> Get(budgets, from) == None
      ensures forall c :: c != from && c != to ==> Get(budgets, c) == Get(old(budgets), c)
      ensures selectedCategory == old(selectedCategory) && budgetInput == old(budgetInput)
      ensures saveDisabled == old(saveDisabled)
    {
      if from in Keys(budgets) {
        var amount := Get(budgets, from).value;
        var i := IndexOf(budgets, from);
        assert budgets[i] in budgets;
        budgets := Put(Remove(budgets, from), to, amount);
      }
    }

    /** `handle_category_removed`: the category's budget, if any, is deleted. */
    method HandleCategoryRemoved(category: string)
      requires Valid()
      modifies this
      ensures Valid()
      ensures budgets == Remove(old(budgets), category)
      ensures Get(budgets, category) == None
      ensures forall c :: c != category ==> Get(budgets, c) == Get(old(budgets), c)
      ensures selectedCategory == old(selectedCategory) && budgetInput == old(budgetInput)
      ensures saveDisabled == old(saveDisabled)
    {
      budgets := Remove(budgets, category);
    }

    /** `update_budgets_table` for the month `month` of `year` (the source reads
        the clock): one line per category with a budget amount, in sorted
        order, or nothing ("No budgets set.") when no category has one. */
    method UpdateBudgetsTable(month: int, year: int) returns (table: Option<seq<Row>>)
      requires Valid() && ledger.Valid() && 1 <= month <= 12
      ensures var rows := TableRows(ledger.transactions, budgets, Sort(Exact, Keys(budgets)), month, year);
              table == if rows == [] then None else Some(rows)
    {
      if |budgets| == 0 {
        return None;
      }
      var rows := BuildRows(ledger, budgets, Sort(Exact, Keys(budgets)), month, year);
      table := if rows == [] then None else Some(rows);
    }
  }

  lemma TableRowsSnoc(txs: seq<Transaction>, b: Budgets, cats: seq<string>, i: nat, month: int, year: int)
    requires i < |cats| && 1 <= month <= 12
    ensures TableRows(txs, b, cats[..i + 1], month, year)
         == TableRows(txs, b, cats[..i], month, year)
            + if HasAmount(b, cats[i]) then [RowFor(txs, cats[i], Get(b, cats[i]).value.value, month, year)] else []
  {
    assert cats[..i + 1][..i] == cats[..i];
  }

  /** The loop of `update_budgets_table` over the categories in order, with
      this month's and last month's figures for each one with an amount. */
  method BuildRows(ledger: Ledger, budgets: Budgets, cats: seq<string>, month: int, year: int) returns (rows: seq<Row>)
    requires ledger.Valid() && 1 <= month <= 12
    ensures rows == TableRows(ledger.transactions, budgets, cats, month, year)
  {
    var last := PreviousMonth(month, year);
    rows := [];
    var i := 0;
    while i < |cats|
      invariant 0 <= i <= |cats|
      invariant rows == TableRows(ledger.transactions, budgets, cats[..i], month, year)
    {
      var category := cats[i];
      TableRowsSnoc(ledger.transactions, budgets, cats, i, month, year);
      var amount := Get(budgets, category);
      if amount.Some? && amount.value.Given? {
        var budget := amount.value.value;
        var lastSpent, lastRemaining := GetBudgetStatsForMonth(ledger, last.0, last.1, category, budget);
        var spent, remaining := GetBudgetStatsForMonth(ledger, month, year, category, budget);
        assert Row(category, budget, spent, remaining, lastSpent, lastRemaining)
            == RowFor(ledger.transactions, category, budget, month, year);
        rows := rows + [Row(category, budget, spent, remaining, lastSpent, lastRemaining)];
      }
      i := i + 1;
    }
    assert cats[..i] == cats;
  }

  /** The table lists every category with a budget amount once, in sorted
      order, and no other. */
  lemma TableLines(txs: seq<Transaction>, b: Budgets, month: int, year: int)
    requires 1 <= month <= 12
    ensures var rows := TableRows(txs, b, Sort(Exact, Keys(b)), month, year);
      Sorted(Exact, Categories(rows))
      && (forall c :: c in Categories(rows) <==> HasAmount(b, c))
  {
    var cats := Sort(Exact, Keys(b));
    SortSorted(Exact, Keys(b));
    TableRowsSorted(txs, b, cats, month, year);
    TableRowsCategories(txs, b, cats, month, year);
    forall c ensures c in cats <==> c in Keys(b) {
      assert c in multiset(cats) <==> c in multiset(Keys(b));
    }
  }
}
