/** The transaction store of moneyterm/utils/ledger.py: an account registry, a
    transaction table keyed by (account number, transaction id), import of
    parsed statement records with duplicate suppression, date-scoped queries,
    and the per-kind auto/manual label lists of each transaction. */
module Ledger {
  import opened Common
  import opened Text

  datatype Account = Account(number: string, accountType: string, institution: string, alias: string)

  /** One label list per kind. */
  datatype Labels = Labels(bills: seq<string>, expenses: seq<string>, incomes: seq<string>) {
    function Of(k: Kind): seq<string> {
      match k
      case Bills => bills
      case Expenses => expenses
      case Incomes => incomes
    }

    function With(k: Kind, l: seq<string>): (r: Labels)
      ensures r.Of(k) == l
      ensures forall j :: j != k ==> r.Of(j) == Of(j)
    {
      match k
      case Bills => this.(bills := l)
      case Expenses => this.(expenses := l)
      case Incomes => this.(incomes := l)
    }

    /** `bills + categories + incomes`. */
    function Concat(): seq<string> {
      bills + expenses + incomes
    }

    /** Every list is kept sorted: each change to a list ends with `sort()`. */
    ghost predicate ListsSorted() {
      Sorted(Exact, bills) && Sorted(Exact, expenses) && Sorted(Exact, incomes)
    }
  }

  const NoLabels := Labels([], [], [])

  type TxKey = (string, string)

  datatype Transaction = Transaction(
    date: Date, txid: string, memo: string, payee: string, txType: string, amount: real,
    accountNumber: string, auto: Labels, manual: Labels, alias: string, splits: map<string, real>)
  {
    function Key(): TxKey {
      (accountNumber, txid)
    }

    /** The six label lists, auto then manual, bills then expenses then incomes:
        the order in which the source concatenates them. */
    function AllLabels(): seq<string> {
      auto.Concat() + manual.Concat()
    }

    ghost predicate ListsSorted() {
      auto.ListsSorted() && manual.ListsSorted()
    }

    /** What every stored transaction keeps: sorted lists, and no manual list
        holding a label twice (`add_label_to_tx` appends only a label its kind
        does not carry yet). */
    ghost predicate LabelsOk() {
      ListsSorted() && forall k :: NoDup(manual.Of(k))
    }
  }

  /** A statement record as the external parser yields it. */
  datatype ParsedTx = ParsedTx(id: string, date: Date, memo: string, payee: string, txType: string, amount: real)
  datatype ParsedAccount = ParsedAccount(number: string, accountType: string, institution: string, records: seq<ParsedTx>)

  /** The import source: the file is absent, or it parsed into accounts. */
  datatype StatementFile = Missing | Parsed(accounts: seq<ParsedAccount>)

  datatype LoadResults = LoadResults(accountsAdded: nat, transactionsAdded: nat, transactionsIgnored: nat)

  datatype LedgerError = NotFound(key: TxKey) | InvalidMonth(month: int)

  datatype Result<+T> = Ok(value: T) | Err(error: LedgerError)

  /** A freshly imported transaction: no labels, no alias, no splits. */
  function NewTransaction(number: string, p: ParsedTx): (t: Transaction)
    ensures t.Key() == (number, p.id)
    ensures t.auto == NoLabels && t.manual == NoLabels && t.alias == "" && t.splits == map[]
  {
    Transaction(p.date, p.id, p.memo, p.payee, p.txType, p.amount, number, NoLabels, NoLabels, "", map[])
  }

  /** Every (account number, record) pair of a file, in file order. */
  function Records(accts: seq<ParsedAccount>): (r: seq<(string, ParsedTx)>)
  {
    if |accts| == 0 then []
    else Records(accts[..|accts| - 1]) + RecordsOf(accts[|accts| - 1])
  }

  function RecordsOf(a: ParsedAccount): (r: seq<(string, ParsedTx)>)
    ensures |r| == |a.records|
    ensures forall i :: 0 <= i < |r| ==> r[i] == (a.number, a.records[i])
  {
    seq(|a.records|, i requires 0 <= i < |a.records| => (a.number, a.records[i]))
  }

  function RecordCount(f: StatementFile): nat {
    if f.Missing? then 0 else |Records(f.accounts)|
  }

  /** The store key of each record, in order. */
  function RecordKeys(recs: seq<(string, ParsedTx)>): (r: seq<TxKey>)
    ensures |r| == |recs|
    ensures forall i :: 0 <= i < |recs| ==> r[i] == (recs[i].0, recs[i].1.id)
  {
    seq(|recs|, i requires 0 <= i < |recs| => (recs[i].0, recs[i].1.id))
  }

  /** The account numbers of a file. */
  function AccountNumbers(accts: seq<ParsedAccount>): (r: set<string>)
    ensures forall i :: 0 <= i < |accts| ==> accts[i].number in r
  {
    if |accts| == 0 then {}
    else AccountNumbers(accts[..|accts| - 1]) + {accts[|accts| - 1].number}
  }

  /** The keys of the stored transactions, in insertion order. */
  function KeyList(txs: seq<Transaction>): (r: seq<TxKey>)
    ensures |r| == |txs|
    ensures forall i :: 0 <= i < |txs| ==> r[i] == txs[i].Key()
  {
    seq(|txs|, i requires 0 <= i < |txs| => txs[i].Key())
  }

  /** The store invariant: no key is stored twice, every transaction refers to
      a registered account, every label list is sorted, no manual list holds a
      label twice, and every account is registered under its own number. */
  ghost predicate StoreOk(accounts: map<string, Account>, txs: seq<Transaction>) {
    && (forall i, j :: 0 <= i < j < |txs| ==> txs[i].Key() != txs[j].Key())
    && (forall i :: 0 <= i < |txs| ==> txs[i].accountNumber in accounts && txs[i].LabelsOk())
    && (forall n :: n in accounts ==> accounts[n].number == n)
  }

  /** `self.transactions.get(key)`: where the key is stored, if anywhere. */
  function Find(txs: seq<Transaction>, key: TxKey): (r: Option<nat>)
    ensures r.None? <==> key !in KeyList(txs)
    ensures r.Some? ==> r.value < |txs| && txs[r.value].Key() == key
  {
    if |txs| == 0 then None
    else if txs[|txs| - 1].Key() == key then Some(|txs| - 1)
    else
      var r := Find(txs[..|txs| - 1], key);
      assert KeyList(txs) == KeyList(txs[..|txs| - 1]) + [txs[|txs| - 1].Key()];
      r
  }

  // ---------------------------------------------------------------------------
  // Filters and the sort by date

  /** The scopes of the four range queries. */
  datatype Scope = Everything | OfAccount(acct: string) | OfYear(acct: string, year: int) | OfMonth(acct: string, year: int, month: int)

  predicate InScope(t: Transaction, sc: Scope) {
    match sc
    case Everything => true
    case OfAccount(a) => t.accountNumber == a
    case OfYear(a, y) => t.accountNumber == a && t.date.year == y
    case OfMonth(a, y, m) => t.accountNumber == a && t.date.month == m && t.date.year == y
  }

  /** The list comprehension `[tx for tx in s if <scope test>]`. */
  function Select(s: seq<Transaction>, sc: Scope): (r: seq<Transaction>)
    ensures forall t :: multiset(r)[t] == if InScope(t, sc) then multiset(s)[t] else 0
    ensures forall t :: t in r <==> t in s && InScope(t, sc)
  {
    if |s| == 0 then []
    else
      assert s == s[..|s| - 1] + [s[|s| - 1]];
      Select(s[..|s| - 1], sc) + if InScope(s[|s| - 1], sc) then [s[|s| - 1]] else []
  }

  /** `[tx for tx in s if label in <the six lists of tx>]`, order kept. */
  function WithLabel(s: seq<Transaction>, lab: string): (r: seq<Transaction>)
    ensures forall t :: multiset(r)[t] == if lab in t.AllLabels() then multiset(s)[t] else 0
    ensures forall t :: t in r <==> t in s && lab in t.AllLabels()
  {
    if |s| == 0 then []
    else
      assert s == s[..|s| - 1] + [s[|s| - 1]];
      WithLabel(s[..|s| - 1], lab) + if lab in s[|s| - 1].AllLabels() then [s[|s| - 1]] else []
  }

  ghost predicate SortedByDate(s: seq<Transaction>) {
    forall i, j :: 0 <= i < j < |s| ==> DateLe(s[i].date, s[j].date)
  }

  /** Places `t` after every element dated on or before it. */
  function InsertByDate(s: seq<Transaction>, t: Transaction): (r: seq<Transaction>)
    ensures multiset(r) == multiset(s) + multiset{t}
  {
    if |s| == 0 then [t]
    else if !DateLe(s[0].date, t.date) then [t] + s
    else
      assert s == [s[0]] + s[1..];
      [s[0]] + InsertByDate(s[1..], t)
  }

  lemma {:induction false} InsertByDateSorted(s: seq<Transaction>, t: Transaction)
    requires SortedByDate(s)
    ensures SortedByDate(InsertByDate(s, t))
  {
    if |s| > 0 && DateLe(s[0].date, t.date) {
      InsertByDateSorted(s[1..], t);
      var u := InsertByDate(s[1..], t);
      forall j | 0 <= j < |u| ensures DateLe(s[0].date, u[j].date) {
        assert u[j] in multiset(u);
        if u[j] != t {
          assert u[j] in multiset(s[1..]);
          var m :| 0 <= m < |s[1..]| && s[1..][m] == u[j];
          assert s[m + 1] == u[j];
        }
      }
    }
  }

  /** `sorted(s, key=lambda tx: tx.date)`: a stable sort by date. */
  function SortByDate(s: seq<Transaction>): (r: seq<Transaction>)
    ensures multiset(r) == multiset(s)
  {
    if |s| == 0 then []
    else
      assert s == s[..|s| - 1] + [s[|s| - 1]];
      InsertByDate(SortByDate(s[..|s| - 1]), s[|s| - 1])
  }

  lemma {:induction false} SortByDateSorted(s: seq<Transaction>)
    ensures SortedByDate(SortByDate(s))
  {
    if |s| > 0 {
      SortByDateSorted(s[..|s| - 1]);
      InsertByDateSorted(SortByDate(s[..|s| - 1]), s[|s| - 1]);
    }
  }

  /** The transactions of `s` dated `d`, in the order of `s`. */
  function OnDate(s: seq<Transaction>, d: Date): seq<Transaction> {
    if |s| == 0 then [] else (if s[0].date == d then [s[0]] else []) + OnDate(s[1..], d)
  }

  lemma {:induction false} OnDateAppend(a: seq<Transaction>, b: seq<Transaction>, d: Date)
    ensures OnDate(a + b, d) == OnDate(a, d) + OnDate(b, d)
  {
    if |a| == 0 {
      assert a + b == b;
    } else {
      assert (a + b)[0] == a[0] && (a + b)[1..] == a[1..] + b;
      OnDateAppend(a[1..], b, d);
    }
  }

  lemma {:induction false} OnDateNone(s: seq<Transaction>, d: Date)
    requires forall j :: 0 <= j < |s| ==> s[j].date != d
    ensures OnDate(s, d) == []
  {
    if |s| > 0 {
      assert forall j :: 0 <= j < |s[1..]| ==> s[1..][j] == s[j + 1];
      OnDateNone(s[1..], d);
    }
  }

  lemma LaterThanAll(s: seq<Transaction>, t: Transaction)
    requires SortedByDate(s) && |s| > 0 && !DateLe(s[0].date, t.date)
    ensures forall j :: 0 <= j < |s| ==> s[j].date != t.date
  {
    forall j | 0 <= j < |s| ensures s[j].date != t.date {
      if j > 0 {
        assert DateLe(s[0].date, s[j].date);
      }
    }
  }

  /** Inserting into a sorted list keeps the order among equal dates: the new
      transaction comes after every one dated as it is. */
  lemma {:induction false} InsertByDateStable(s: seq<Transaction>, t: Transaction, d: Date)
    requires SortedByDate(s)
    ensures OnDate(InsertByDate(s, t), d) == OnDate(s, d) + (if t.date == d then [t] else [])
  {
    if |s| > 0 {
      if !DateLe(s[0].date, t.date) {
        assert InsertByDate(s, t)[1..] == s;
        if t.date == d {
          LaterThanAll(s, t);
          OnDateNone(s, d);
        }
      } else {
        assert InsertByDate(s, t)[1..] == InsertByDate(s[1..], t);
        InsertByDateStable(s[1..], t, d);
      }
    }
  }

  /** The sort is stable: the transactions of any one date keep their order. */
  lemma {:induction false} SortByDateStable(s: seq<Transaction>, d: Date)
    ensures OnDate(SortByDate(s), d) == OnDate(s, d)
  {
    if |s| > 0 {
      var init, t := s[..|s| - 1], s[|s| - 1];
      var sorted := SortByDate(init);
      var own := if t.date == d then [t] else [];
      calc {
        OnDate(SortByDate(s), d);
        OnDate(InsertByDate(sorted, t), d);
        { SortByDateSorted(init); InsertByDateStable(sorted, t, d); }
        OnDate(sorted, d) + own;
        { SortByDateStable(init, d); }
        OnDate(init, d) + own;
        { assert [t][1..] == []; }
        OnDate(init, d) + OnDate([t], d);
        { OnDateAppend(init, [t], d); assert init + [t] == s; }
        OnDate(s, d);
      }
    }
  }

  /** A range query: exactly the stored transactions of the scope, each as often
      as it is stored, sorted ascending by date. */
  lemma QueryCharacterised(s: seq<Transaction>, sc: Scope)
    ensures SortedByDate(SortByDate(Select(s, sc)))
    ensures forall t :: multiset(SortByDate(Select(s, sc)))[t] == if InScope(t, sc) then multiset(s)[t] else 0
  {
    SortByDateSorted(Select(s, sc));
  }

  // ---------------------------------------------------------------------------
  // Months with activity

  function MonthName(m: int): string {
    if m == 1 then "January" else if m == 2 then "February" else if m == 3 then "March"
    else if m == 4 then "April" else if m == 5 then "May" else if m == 6 then "June"
    else if m == 7 then "July" else if m == 8 then "August" else if m == 9 then "September"
    else if m == 10 then "October" else if m == 11 then "November" else "December"
  }

  predicate OfAccountOrAll(t: Transaction, acct: Option<string>) {
    acct.None? || t.accountNumber == acct.value
  }

  /** `find_dates_with_tx_activity`: for every year with activity, the set of
      (month, month name) pairs with activity. */
  function DatesWithActivity(s: seq<Transaction>, acct: Option<string>): (r: map<int, set<(int, string)>>)
    ensures forall y :: y in r <==> exists t :: t in s && OfAccountOrAll(t, acct) && t.date.year == y
    ensures forall y, m :: y in r ==> ((m, MonthName(m)) in r[y] <==> exists t :: t in s && OfAccountOrAll(t, acct) && t.date.year == y && t.date.month == m)
    ensures forall y, p :: y in r && p in r[y] ==> p.1 == MonthName(p.0)
  {
    if |s| == 0 then map[]
    else
      var r := DatesWithActivity(s[..|s| - 1], acct);
      var t := s[|s| - 1];
      assert forall u :: u in s <==> u in s[..|s| - 1] || u == t by {
        assert s == s[..|s| - 1] + [t];
      }
      if OfAccountOrAll(t, acct) then
        r[t.date.year := (if t.date.year in r then r[t.date.year] else {}) + {(t.date.month, MonthName(t.date.month))}]
      else r
  }

  // ---------------------------------------------------------------------------
  // Label-list updates, one transaction at a time

  /** `add_label_to_tx`: the label is appended (and the list re-sorted) only
      when it is in neither the auto nor the manual list of its kind. */
  function AddLabel(t: Transaction, lab: string, kind: Kind, auto: bool): (r: Transaction)
    ensures lab in t.auto.Of(kind) || lab in t.manual.Of(kind) ==> r == t
    ensures lab !in t.auto.Of(kind) && lab !in t.manual.Of(kind) ==>
      if auto then
        r == t.(auto := r.auto) && multiset(r.auto.Of(kind)) == multiset(t.auto.Of(kind)) + multiset{lab}
        && forall j :: j != kind ==> r.auto.Of(j) == t.auto.Of(j)
      else
        r == t.(manual := r.manual) && multiset(r.manual.Of(kind)) == multiset(t.manual.Of(kind)) + multiset{lab}
        && forall j :: j != kind ==> r.manual.Of(j) == t.manual.Of(j)
  {
    if lab in t.auto.Of(kind) || lab in t.manual.Of(kind) then t
    else if auto then t.(auto := t.auto.With(kind, Insert(Exact, t.auto.Of(kind), lab)))
    else t.(manual := t.manual.With(kind, Insert(Exact, t.manual.Of(kind), lab)))
  }

  /** Adding a label keeps the lists sorted and adds no manual duplicate. */
  lemma AddLabelKeepsLabelsOk(t: Transaction, lab: string, kind: Kind, auto: bool)
    requires t.LabelsOk()
    ensures AddLabel(t, lab, kind, auto).LabelsOk()
  {
    InsertSorted(Exact, t.auto.Of(kind), lab);
    InsertSorted(Exact, t.manual.Of(kind), lab);
    if lab !in t.manual.Of(kind) {
      InsertNoDup(t.manual.Of(kind), lab);
    }
  }

  lemma InsertNoDup(s: seq<string>, x: string)
    requires NoDup(s) && x !in s
    ensures NoDup(Insert(Exact, s, x))
  {
    var r := Insert(Exact, s, x);
    NoDupMultiset(s);
    forall y ensures multiset(r)[y] <= 1 {
      if y == x { assert x !in multiset(s); }
    }
    MultisetNoDup(r);
  }

  /** Adding a label never creates a duplicate: if the lists of its kind had no
      duplicate and did not share a label, they still do not, and the label is
      now in one of them. */
  lemma AddLabelNoDuplicate(t: Transaction, lab: string, kind: Kind, auto: bool)
    requires NoDup(t.auto.Of(kind) + t.manual.Of(kind))
    ensures NoDup(AddLabel(t, lab, kind, auto).auto.Of(kind) + AddLabel(t, lab, kind, auto).manual.Of(kind))
    ensures lab in AddLabel(t, lab, kind, auto).auto.Of(kind) + AddLabel(t, lab, kind, auto).manual.Of(kind)
  {
    var r := AddLabel(t, lab, kind, auto);
    var before := t.auto.Of(kind) + t.manual.Of(kind);
    var after := r.auto.Of(kind) + r.manual.Of(kind);
    if lab !in before {
      assert multiset(after) == multiset(before) + multiset{lab};
      NoDupMultiset(before);
      forall x ensures multiset(after)[x] <= 1 {
        if x == lab { assert x !in multiset(before); }
      }
      MultisetNoDup(after);
      assert lab in multiset(after);
    }
  }

  lemma NoDupMultiset(s: seq<string>)
    requires NoDup(s)
    ensures forall x :: multiset(s)[x] <= 1
  {
    if |s| > 0 {
      var u := s[..|s| - 1];
      assert s == u + [s[|s| - 1]];
      NoDupMultiset(u);
      assert s[|s| - 1] !in u;
    }
  }

  lemma MultisetNoDup(s: seq<string>)
    requires forall x :: multiset(s)[x] <= 1
    ensures NoDup(s)
  {
    forall i, j | 0 <= i < j < |s| ensures s[i] != s[j] {
      var x := s[j];
      assert s == s[..j] + [x] + s[j + 1..];
      assert multiset(s)[x] == multiset(s[..j])[x] + 1 + multiset(s[j + 1..])[x];
      assert s[..j][i] == s[i];
      assert s[i] in multiset(s[..j]);
    }
  }

  /** Drops the first occurrence of `lab` from a list that holds it. */
  function Without(l: seq<string>, lab: string): seq<string> {
    if lab in l then RemoveFirst(l, lab) else l
  }

  /** `remove_label_from_tx` on one transaction: the label leaves each manual
      list that holds it; the auto lists are not touched. */
  function StripManual(t: Transaction, lab: string): (r: Transaction)
    ensures r == t.(manual := r.manual)
    ensures forall k :: multiset(r.manual.Of(k)) == multiset(t.manual.Of(k)) - multiset{lab}
  {
    t.(manual := Labels(Without(t.manual.bills, lab), Without(t.manual.expenses, lab), Without(t.manual.incomes, lab)))
  }

  lemma StripManualKeepsLabelsOk(t: Transaction, lab: string)
    requires t.LabelsOk()
    ensures StripManual(t, lab).LabelsOk()
  {
    if lab in t.manual.bills { RemoveFirstSorted(Exact, t.manual.bills, lab); }
    if lab in t.manual.expenses { RemoveFirstSorted(Exact, t.manual.expenses, lab); }
    if lab in t.manual.incomes { RemoveFirstSorted(Exact, t.manual.incomes, lab); }
    forall k ensures NoDup(StripManual(t, lab).manual.Of(k)) {
      NoDupMultiset(t.manual.Of(k));
      MultisetNoDup(StripManual(t, lab).manual.Of(k));
    }
  }

  /** With no duplicate in a manual list, as the store keeps it, the label is
      gone from it afterwards, and every other label keeps its place in the
      multiset. */
  lemma StripManualRemoves(t: Transaction, lab: string, k: Kind)
    requires NoDup(t.manual.Of(k))
    ensures lab !in StripManual(t, lab).manual.Of(k)
    ensures forall x :: x != lab ==> multiset(StripManual(t, lab).manual.Of(k))[x] == multiset(t.manual.Of(k))[x]
  {
    NoDupMultiset(t.manual.Of(k));
    var l := StripManual(t, lab).manual.Of(k);
    assert multiset(l)[lab] == 0;
  }

  /** `rename_label` on one list: remove the old name, append the new, sort. */
  function RenameIn(l: seq<string>, from: string, to: string): (r: seq<string>)
    ensures from !in l ==> r == l
    ensures from in l ==> multiset(r) == multiset(l) - multiset{from} + multiset{to}
  {
    if from in l then Insert(Exact, RemoveFirst(l, from), to) else l
  }

  lemma RenameInSorted(l: seq<string>, from: string, to: string)
    requires Sorted(Exact, l)
    ensures Sorted(Exact, RenameIn(l, from, to))
  {
    if from in l {
      RemoveFirstSorted(Exact, l, from);
      InsertSorted(Exact, RemoveFirst(l, from), to);
    }
  }

  /** Renaming into a list that has no duplicate adds none, unless the list
      already held the new name beside the old. */
  lemma RenameInNoDup(l: seq<string>, from: string, to: string)
    requires NoDup(l) && (from in l && from != to ==> to !in l)
    ensures NoDup(RenameIn(l, from, to))
  {
    if from in l {
      NoDupMultiset(l);
      var r := RenameIn(l, from, to);
      forall y ensures multiset(r)[y] <= 1 {
        if y == to && from != to { assert to !in multiset(l); }
      }
      MultisetNoDup(r);
    }
  }

  /** No manual list of `t` holds both names: the renamed list cannot end up
      holding the new name twice. */
  ghost predicate RenameSafe(t: Transaction, from: string, to: string) {
    forall k :: from in t.manual.Of(k) && from != to ==> to !in t.manual.Of(k)
  }

  function RenameManual(t: Transaction, from: string, to: string): (r: Transaction)
    ensures r == t.(manual := r.manual)
    ensures forall k :: r.manual.Of(k) == RenameIn(t.manual.Of(k), from, to)
  {
    t.(manual := Labels(RenameIn(t.manual.bills, from, to), RenameIn(t.manual.expenses, from, to), RenameIn(t.manual.incomes, from, to)))
  }

  lemma RenameManualKeepsLabelsOk(t: Transaction, from: string, to: string)
    requires t.LabelsOk() && RenameSafe(t, from, to)
    ensures RenameManual(t, from, to).LabelsOk()
  {
    RenameInSorted(t.manual.bills, from, to);
    RenameInSorted(t.manual.expenses, from, to);
    RenameInSorted(t.manual.incomes, from, to);
    forall k ensures NoDup(RenameManual(t, from, to).manual.Of(k)) {
      RenameInNoDup(t.manual.Of(k), from, to);
    }
  }

  /** `split_transaction`: only a label the transaction carries may be split;
      a positive value is stored, a value of zero or less clears the entry. */
  function SetSplit(t: Transaction, lab: string, value: real): (r: Option<Transaction>)
    ensures r.None? <==> lab !in t.AllLabels()
    ensures r.Some? ==> r.value == t.(splits := r.value.splits)
    ensures r.Some? && value > 0.0 ==> r.value.splits == t.splits[lab := value]
    ensures r.Some? && value <= 0.0 ==> r.value.splits == t.splits - {lab}
  {
    if lab !in t.AllLabels() then None
    else if value > 0.0 then Some(t.(splits := t.splits[lab := value]))
    else Some(t.(splits := t.splits - {lab}))
  }

  /** `validate_split_labels`: drops every split whose label the transaction no
      longer carries. */
  function ValidateSplits(t: Transaction): (r: Transaction)
    ensures r == t.(splits := r.splits)
    ensures forall l :: l in r.splits <==> l in t.splits && l in t.AllLabels()
    ensures forall l :: l in r.splits ==> r.splits[l] == t.splits[l]
  {
    t.(splits := map l | l in t.splits && l in t.AllLabels() :: t.splits[l])
  }

  // ---------------------------------------------------------------------------
  // The store

  /** A transaction as imported and not yet touched. */
  predicate Untouched(t: Transaction) {
    t.auto == NoLabels && t.manual == NoLabels && t.alias == "" && t.splits == map[]
  }

  /** `after` keeps `before` as its prefix and appends only untouched
      transactions: nothing stored is overwritten. */
  ghost predicate Extends(before: seq<Transaction>, after: seq<Transaction>) {
    |before| <= |after| && after[..|before|] == before
    && forall i :: |before| <= i < |after| ==> Untouched(after[i])
  }

  class Ledger {
    var accounts: map<string, Account>
    /** `self.transactions.values()`: the transactions in insertion order; the
        dictionary key of each is its `Key()`. */
    var transactions: seq<Transaction>

    ghost predicate Valid()
      reads this
    {
      StoreOk(accounts, transactions)
    }

    constructor ()
      ensures Valid()
      ensures accounts == map[] && transactions == []
    {
      accounts := map[];
      transactions := [];
    }

    /** `get_tx_by_txid`: the transaction under the key, or NotFound. */
    function GetTxByTxid(acct: string, txid: string): (r: Result<Transaction>)
      reads this
      requires Valid()
      ensures r.Err? <==> (acct, txid) !in KeyList(transactions)
      ensures r.Err? ==> r.error == NotFound((acct, txid))
      ensures r.Ok? ==> r.value.accountNumber == acct && r.value.txid == txid && r.value in transactions
    {
      match Find(transactions, (acct, txid))
      case None => Err(NotFound((acct, txid)))
      case Some(i) => Ok(transactions[i])
    }

    /** `get_all_tx`: every stored transaction, sorted ascending by date. */
    function GetAllTx(): (r: seq<Transaction>)
      reads this
      requires Valid()
      ensures SortedByDate(r)
      ensures multiset(r) == multiset(transactions)
    {
      QueryCharacterised(transactions, Everything);
      SortByDate(Select(transactions, Everything))
    }

    /** `get_tx_by_account`. */
    function GetTxByAccount(acct: string): (r: seq<Transaction>)
      reads this
      requires Valid()
      ensures SortedByDate(r)
      ensures forall t :: multiset(r)[t] == if t.accountNumber == acct then multiset(transactions)[t] else 0
    {
      QueryCharacterised(transactions, OfAccount(acct));
      SortByDate(Select(transactions, OfAccount(acct)))
    }

    /** `get_tx_by_year`. */
    function GetTxByYear(acct: string, year: int): (r: seq<Transaction>)
      reads this
      requires Valid()
      ensures SortedByDate(r)
      ensures forall t :: multiset(r)[t] == if t.accountNumber == acct && t.date.year == year then multiset(transactions)[t] else 0
    {
      QueryCharacterised(transactions, OfYear(acct, year));
      SortByDate(Select(transactions, OfYear(acct, year)))
    }

    /** `get_tx_by_month`: InvalidMonth outside 1..12. */
    function GetTxByMonth(acct: string, year: int, month: int): (r: Result<seq<Transaction>>)
      reads this
      requires Valid()
      ensures r.Err? <==> !(1 <= month <= 12)
      ensures r.Err? ==> r.error == InvalidMonth(month)
      ensures r.Ok? ==> SortedByDate(r.value)
      ensures r.Ok? ==> forall t :: multiset(r.value)[t] == if InScope(t, OfMonth(acct, year, month)) then multiset(transactions)[t] else 0
    {
      if !(1 <= month <= 12) then Err(InvalidMonth(month))
      else
        QueryCharacterised(transactions, OfMonth(acct, year, month));
        Ok(SortByDate(Select(transactions, OfMonth(acct, year, month))))
    }

    /** `get_all_tx_with_label`: in store order, each transaction carrying the
        label in any of its six lists. */
    function GetAllTxWithLabel(lab: string): (r: seq<Transaction>)
      reads this
      requires Valid()
      ensures forall t :: t in r <==> t in transactions && lab in t.AllLabels()
      ensures forall t :: multiset(r)[t] == if lab in t.AllLabels() then multiset(transactions)[t] else 0
    {
      WithLabel(transactions, lab)
    }

    /** `find_dates_with_tx_activity`. */
    function FindDatesWithTxActivity(acct: Option<string>): (r: map<int, set<(int, string)>>)
      reads this
      requires Valid()
      ensures forall y :: y in r <==> exists t :: t in transactions && OfAccountOrAll(t, acct) && t.date.year == y
      ensures forall y, m :: y in r ==> ((m, MonthName(m)) in r[y] <==> exists t :: t in transactions && OfAccountOrAll(t, acct) && t.date.year == y && t.date.month == m)
      ensures forall y, p :: y in r && p in r[y] ==> p.1 == MonthName(p.0)
    {
      DatesWithActivity(transactions, acct)
    }

    /** `load_ofx_data` on an already-parsed file: the accounts of the file
        are registered and its records imported, as `Registered` and
        `Imported` define. A missing file changes nothing and counts nothing. */
    method LoadOfxData(file: StatementFile) returns (res: LoadResults)
      requires Valid()
      modifies this
      ensures Valid()
      ensures file.Missing? ==> res == LoadResults(0, 0, 0) && accounts == old(accounts) && transactions == old(transactions)
      ensures file.Parsed? ==> accounts == Registered(old(accounts), file.accounts)
      ensures file.Parsed? ==> transactions == Imported(old(transactions), Records(file.accounts))
      ensures file.Parsed? ==> res.accountsAdded == CountNew(old(accounts).Keys, file.accounts)
      ensures res.transactionsAdded == |transactions| - |old(transactions)|
      ensures res.transactionsAdded + res.transactionsIgnored == RecordCount(file)
    {
      res := LoadResults(0, 0, 0);
      if file.Missing? {
        return;
      }
      var accs, txs;
      accs, txs, res := ImportFile(accounts, transactions, file.accounts);
      LoadKeepsStore(accounts, transactions, file.accounts);
      accounts, transactions := accs, txs;
    }

    /** `add_label_to_tx`. A key that is not stored is reported (the source
        raises KeyError) and changes nothing. */
    method AddLabelToTx(acct: string, txid: string, lab: string, kind: Kind, auto: bool) returns (found: bool)
      requires Valid()
      modifies this
      ensures Valid() && accounts == old(accounts)
      ensures found <==> (acct, txid) in KeyList(old(transactions))
      ensures |transactions| == |old(transactions)|
      ensures forall i :: 0 <= i < |transactions| ==>
        transactions[i] == if old(transactions)[i].Key() == (acct, txid) then AddLabel(old(transactions)[i], lab, kind, auto) else old(transactions)[i]
    {
      var r := Find(transactions, (acct, txid));
      found := r.Some?;
      if found {
        var t := transactions[r.value];
        AddLabelKeepsLabelsOk(t, lab, kind, auto);
        StoreOkReplace(accounts, transactions, r.value, AddLabel(t, lab, kind, auto));
        transactions := transactions[r.value := AddLabel(t, lab, kind, auto)];
      }
    }

    /** `remove_label_from_tx`. A key that is not stored is reported (the
        source raises ValueError) and changes nothing. */
    method RemoveLabelFromTx(acct: string, txid: string, lab: string) returns (found: bool)
      requires Valid()
      modifies this
      ensures Valid() && accounts == old(accounts)
      ensures found <==> (acct, txid) in KeyList(old(transactions))
      ensures |transactions| == |old(transactions)|
      ensures forall i :: 0 <= i < |transactions| ==>
        transactions[i] == if old(transactions)[i].Key() == (acct, txid) then StripManual(old(transactions)[i], lab) else old(transactions)[i]
      ensures forall i, k :: 0 <= i < |transactions| && transactions[i].Key() == (acct, txid) ==> lab !in transactions[i].manual.Of(k)
    {
      var r := Find(transactions, (acct, txid));
      found := r.Some?;
      forall i, k | 0 <= i < |transactions| && transactions[i].Key() == (acct, txid)
        ensures lab !in StripManual(transactions[i], lab).manual.Of(k)
      {
        StripManualRemoves(transactions[i], lab, k);
      }
      if found {
        var t := transactions[r.value];
        StripManualKeepsLabelsOk(t, lab);
        StoreOkReplace(accounts, transactions, r.value, StripManual(t, lab));
        transactions := transactions[r.value := StripManual(t, lab)];
      }
    }

    /** `remove_label` (the labeler's `remove_label_from_all_tx`): the label
        leaves every manual list of every transaction; auto lists wait for the
        next scan. */
    method RemoveLabel(lab: string)
      requires Valid()
      modifies this
      ensures Valid() && accounts == old(accounts)
      ensures |transactions| == |old(transactions)|
      ensures forall i :: 0 <= i < |transactions| ==> transactions[i] == StripManual(old(transactions)[i], lab)
      ensures forall i, k :: 0 <= i < |transactions| ==> lab !in transactions[i].manual.Of(k)
    {
      forall i, k | 0 <= i < |transactions| ensures lab !in StripManual(transactions[i], lab).manual.Of(k) {
        StripManualRemoves(transactions[i], lab, k);
      }
      var txs := transactions;
      var i := 0;
      while i < |txs|
        invariant 0 <= i <= |txs| && |txs| == |transactions|
        invariant accounts == old(accounts) && transactions == old(transactions)
        invariant StoreOk(accounts, txs)
        invariant forall j :: 0 <= j < |txs| ==> txs[j] == if j < i then StripManual(transactions[j], lab) else transactions[j]
      {
        StripManualKeepsLabelsOk(txs[i], lab);
        StoreOkReplace(accounts, txs, i, StripManual(txs[i], lab));
        txs := txs[i := StripManual(txs[i], lab)];
        i := i + 1;
      }
      transactions := txs;
    }

    /** `rename_label`: in every manual list holding the old name, the old name
        is replaced by the new one and the list stays sorted. No transaction
        may hold both names in one manual list. */
    method RenameLabel(from: string, to: string)
      requires Valid()
      requires forall i :: 0 <= i < |transactions| ==> RenameSafe(transactions[i], from, to)
      modifies this
      ensures Valid() && accounts == old(accounts)
      ensures |transactions| == |old(transactions)|
      ensures forall i :: 0 <= i < |transactions| ==> transactions[i] == RenameManual(old(transactions)[i], from, to)
    {
      var txs := transactions;
      var i := 0;
      while i < |txs|
        invariant 0 <= i <= |txs| && |txs| == |transactions|
        invariant accounts == old(accounts) && transactions == old(transactions)
        invariant StoreOk(accounts, txs)
        invariant forall j :: 0 <= j < |txs| ==> txs[j] == if j < i then RenameManual(transactions[j], from, to) else transactions[j]
      {
        var t := txs[i];
        RenameManualKeepsLabelsOk(t, from, to);
        StoreOkReplace(accounts, txs, i, RenameManual(t, from, to));
        txs := txs[i := RenameManual(t, from, to)];
        i := i + 1;
      }
      transactions := txs;
    }

    /** `split_transaction`: a stored transaction that carries the label gets
        the split set (or cleared); otherwise nothing changes. */
    method SplitTransaction(acct: string, txid: string, lab: string, value: real) returns (ok: bool)
      requires Valid()
      modifies this
      ensures Valid() && accounts == old(accounts)
      ensures ok <==> exists i :: 0 <= i < |old(transactions)| && old(transactions)[i].Key() == (acct, txid) && lab in old(transactions)[i].AllLabels()
      ensures |transactions| == |old(transactions)|
      ensures forall i :: 0 <= i < |transactions| ==>
        transactions[i] == if ok && old(transactions)[i].Key() == (acct, txid) then SetSplit(old(transactions)[i], lab, value).value else old(transactions)[i]
    {
      ok := false;
      var r := Find(transactions, (acct, txid));
      if r.Some? {
        var s := SetSplit(transactions[r.value], lab, value);
        if s.Some? {
          ok := true;
          StoreOkReplace(accounts, transactions, r.value, s.value);
          transactions := transactions[r.value := s.value];
        }
      }
    }

    /** `validate_split_labels` on the stored transaction under the key. */
    method ValidateSplitLabels(acct: string, txid: string) returns (found: bool)
      requires Valid()
      modifies this
      ensures Valid() && accounts == old(accounts)
      ensures found <==> (acct, txid) in KeyList(old(transactions))
      ensures |transactions| == |old(transactions)|
      ensures forall i :: 0 <= i < |transactions| ==>
        transactions[i] == if old(transactions)[i].Key() == (acct, txid) then ValidateSplits(old(transactions)[i]) else old(transactions)[i]
    {
      var r := Find(transactions, (acct, txid));
      found := r.Some?;
      if found {
        StoreOkReplace(accounts, transactions, r.value, ValidateSplits(transactions[r.value]));
        transactions := transactions[r.value := ValidateSplits(transactions[r.value])];
      }
    }

    /** `add_account_alias`: only a registered account gets the alias. The
        transactions refer to their account by number, so they see it too. */
    method AddAccountAlias(acct: string, alias: string)
      requires Valid()
      modifies this
      ensures Valid() && transactions == old(transactions)
      ensures acct in old(accounts) ==> accounts == old(accounts)[acct := old(accounts)[acct].(alias := alias)]
      ensures acct !in old(accounts) ==> accounts == old(accounts)
    {
      if acct in accounts {
        accounts := accounts[acct := accounts[acct].(alias := alias)];
      }
    }
  }

  // ---------------------------------------------------------------------------
  // Import, on values

  /** How many accounts of `accts` an import registers into a store that
      already knows the numbers `known`: a number counts where it first occurs. */
  function CountNew(known: set<string>, accts: seq<ParsedAccount>): nat
  {
    if |accts| == 0 then 0
    else
      var init := accts[..|accts| - 1];
      CountNew(known, init) + if accts[|accts| - 1].number in known + AccountNumbers(init) then 0 else 1
  }

  /** The count is the number of distinct new account numbers in the file. */
  lemma {:induction false} CountNewIsNewNumbers(known: set<string>, accts: seq<ParsedAccount>)
    ensures CountNew(known, accts) == |AccountNumbers(accts) - known|
  {
    if |accts| > 0 {
      var init := accts[..|accts| - 1];
      var n := accts[|accts| - 1].number;
      CountNewIsNewNumbers(known, init);
      if n in known + AccountNumbers(init) {
        assert AccountNumbers(accts) - known == AccountNumbers(init) - known;
      } else {
        assert AccountNumbers(accts) - known == (AccountNumbers(init) - known) + {n};
      }
    }
  }

  /** The account map after an import: each number of the file not yet
      registered is registered with the file's type and institution and an
      empty alias, the first time it occurs. */
  function Registered(accounts: map<string, Account>, accts: seq<ParsedAccount>): map<string, Account>
  {
    if |accts| == 0 then accounts
    else RegisterOne(Registered(accounts, accts[..|accts| - 1]), accts[|accts| - 1])
  }

  /** `if account.number not in self.accounts: self.accounts[...] = Account(...)` */
  function RegisterOne(accounts: map<string, Account>, a: ParsedAccount): map<string, Account>
  {
    if a.number in accounts then accounts else accounts[a.number := Account(a.number, a.accountType, a.institution, "")]
  }

  /** The transactions after importing `recs`: a record whose key is already
      stored is ignored; any other is appended, untouched. */
  function Imported(txs: seq<Transaction>, recs: seq<(string, ParsedTx)>): (r: seq<Transaction>)
    ensures |txs| <= |r| <= |txs| + |recs|
  {
    if |recs| == 0 then txs
    else
      var m := Imported(txs, recs[..|recs| - 1]);
      var (n, p) := recs[|recs| - 1];
      if (n, p.id) in KeyList(m) then m else m + [NewTransaction(n, p)]
  }

  /** Registration adds exactly the file's numbers, keeps every registered
      account as it was, and registers each account under its own number. */
  lemma {:induction false} RegisteredKeys(accounts: map<string, Account>, accts: seq<ParsedAccount>)
    ensures Registered(accounts, accts).Keys == accounts.Keys + AccountNumbers(accts)
    ensures forall n :: n in accounts ==> Registered(accounts, accts)[n] == accounts[n]
    ensures (forall n :: n in accounts ==> accounts[n].number == n) ==>
      forall n :: n in Registered(accounts, accts) ==> Registered(accounts, accts)[n].number == n
  {
    if |accts| > 0 {
      RegisteredKeys(accounts, accts[..|accts| - 1]);
    }
  }

  lemma RegisteredHas(accounts: map<string, Account>, accts: seq<ParsedAccount>, n: string)
    ensures n in Registered(accounts, accts) <==> n in accounts || n in AccountNumbers(accts)
  {
    RegisteredKeys(accounts, accts);
  }

  /** Importing keeps the store invariant and overwrites nothing. */
  lemma {:induction false} ImportedKeys(accounts: map<string, Account>, txs: seq<Transaction>, recs: seq<(string, ParsedTx)>)
    requires StoreOk(accounts, txs)
    requires forall i :: 0 <= i < |recs| ==> recs[i].0 in accounts
    ensures StoreOk(accounts, Imported(txs, recs))
    ensures Extends(txs, Imported(txs, recs))
  {
    if |recs| > 0 {
      var init := recs[..|recs| - 1];
      ImportedKeys(accounts, txs, init);
      var m := Imported(txs, init);
      var (n, p) := recs[|recs| - 1];
      if (n, p.id) !in KeyList(m) {
        var t := NewTransaction(n, p);
        StoreOkAppend(accounts, m, t);
        assert (m + [t])[..|txs|] == m[..|txs|];
      }
    }
  }

  /** Importing stores exactly the old keys and the keys of the records. */
  lemma {:induction false} ImportedKeySet(txs: seq<Transaction>, recs: seq<(string, ParsedTx)>)
    ensures forall k :: k in KeyList(Imported(txs, recs)) <==> k in KeyList(txs) || k in RecordKeys(recs)
  {
    if |recs| > 0 {
      var init := recs[..|recs| - 1];
      ImportedKeySet(txs, init);
      var m := Imported(txs, init);
      var (n, p) := recs[|recs| - 1];
      assert RecordKeys(recs) == RecordKeys(init) + [(n, p.id)];
      if (n, p.id) !in KeyList(m) {
        assert KeyList(m + [NewTransaction(n, p)]) == KeyList(m) + [(n, p.id)];
      }
    }
  }

  /** Records whose keys are all stored already are all ignored. */
  lemma {:induction false} ImportedKnown(txs: seq<Transaction>, recs: seq<(string, ParsedTx)>)
    requires forall i :: 0 <= i < |recs| ==> RecordKeys(recs)[i] in KeyList(txs)
    ensures Imported(txs, recs) == txs
  {
    if |recs| > 0 {
      var init := recs[..|recs| - 1];
      assert forall i :: 0 <= i < |init| ==> RecordKeys(init)[i] == RecordKeys(recs)[i];
      ImportedKnown(txs, init);
      assert RecordKeys(recs)[|recs| - 1] in KeyList(txs);
    }
  }

  /** Accounts whose numbers are all registered already register nothing. */
  lemma {:induction false} RegisteredKnown(accounts: map<string, Account>, accts: seq<ParsedAccount>)
    requires forall i :: 0 <= i < |accts| ==> accts[i].number in accounts
    ensures Registered(accounts, accts) == accounts
  {
    if |accts| > 0 {
      RegisteredKnown(accounts, accts[..|accts| - 1]);
    }
  }

  /** Importing the same statement twice is importing it once: the second
      pass registers no account and stores no transaction. */
  lemma ReimportAddsNothing(accounts: map<string, Account>, txs: seq<Transaction>, accts: seq<ParsedAccount>)
    ensures Imported(Imported(txs, Records(accts)), Records(accts)) == Imported(txs, Records(accts))
    ensures Registered(Registered(accounts, accts), accts) == Registered(accounts, accts)
    ensures CountNew(Registered(accounts, accts).Keys, accts) == 0
  {
    var recs := Records(accts);
    ImportedKeySet(txs, recs);
    ImportedKnown(Imported(txs, recs), recs);
    RegisteredKeys(accounts, accts);
    RegisteredKnown(Registered(accounts, accts), accts);
    CountNewIsNewNumbers(Registered(accounts, accts).Keys, accts);
  }

  /** A statement loaded a second time: the second load registers no account,
      stores no transaction and reports every record as ignored. */
  method LoadTwice(l: Ledger, file: StatementFile) returns (first: LoadResults, second: LoadResults)
    requires l.Valid()
    modifies l
    ensures l.Valid()
    ensures first.transactionsAdded == |l.transactions| - |old(l.transactions)|
    ensures second.accountsAdded == 0 && second.transactionsAdded == 0
    ensures second.transactionsIgnored == RecordCount(file)
  {
    first := l.LoadOfxData(file);
    second := l.LoadOfxData(file);
    if file.Parsed? {
      ReimportAddsNothing(old(l.accounts), old(l.transactions), file.accounts);
    }
  }

  /** Importing in two runs is importing the whole. */
  lemma {:induction false} ImportedAppend(txs: seq<Transaction>, x: seq<(string, ParsedTx)>, y: seq<(string, ParsedTx)>)
    ensures Imported(txs, x + y) == Imported(Imported(txs, x), y)
  {
    if |y| == 0 {
      assert x + y == x;
    } else {
      ImportedAppend(txs, x, y[..|y| - 1]);
      assert (x + y)[..|x + y| - 1] == x + y[..|y| - 1];
    }
  }

  lemma {:induction false} RecordsNumbers(accts: seq<ParsedAccount>)
    ensures forall i :: 0 <= i < |Records(accts)| ==> Records(accts)[i].0 in AccountNumbers(accts)
  {
    if |accts| > 0 {
      RecordsNumbers(accts[..|accts| - 1]);
    }
  }

  /** `load_ofx_data` keeps the store invariant. */
  lemma LoadKeepsStore(accounts: map<string, Account>, txs: seq<Transaction>, accts: seq<ParsedAccount>)
    requires StoreOk(accounts, txs)
    ensures StoreOk(Registered(accounts, accts), Imported(txs, Records(accts)))
  {
    var accs := Registered(accounts, accts);
    RegisteredKeys(accounts, accts);
    assert StoreOk(accs, txs);
    RecordsNumbers(accts);
    ImportedKeys(accs, txs, Records(accts));
  }

  /** The inner loop of `load_ofx_data`: the records of one account. */
  method ImportRecords(txs: seq<Transaction>, acct: ParsedAccount) returns (txs': seq<Transaction>, ignored: nat)
    ensures txs' == Imported(txs, RecordsOf(acct))
    ensures |txs'| - |txs| + ignored == |acct.records|
  {
    ignored := 0;
    txs' := txs;
    var i := 0;
    while i < |acct.records|
      invariant 0 <= i <= |acct.records|
      invariant txs' == Imported(txs, RecordsOf(acct)[..i])
      invariant |txs'| - |txs| + ignored == i
    {
      var p := acct.records[i];
      var key := (acct.number, p.id);
      assert RecordsOf(acct)[..i + 1][..i] == RecordsOf(acct)[..i];
      if key !in KeyList(txs') {
        txs' := txs' + [NewTransaction(acct.number, p)];
      } else {
        ignored := ignored + 1;
      }
      i := i + 1;
    }
    assert RecordsOf(acct)[..i] == RecordsOf(acct);
  }

  /** The outer loop of `load_ofx_data` over the accounts of a parsed file. */
  method ImportFile(accounts: map<string, Account>, txs: seq<Transaction>, accts: seq<ParsedAccount>)
    returns (accs': map<string, Account>, txs': seq<Transaction>, res: LoadResults)
    ensures accs' == Registered(accounts, accts)
    ensures txs' == Imported(txs, Records(accts))
    ensures res.accountsAdded == CountNew(accounts.Keys, accts)
    ensures res.transactionsAdded == |txs'| - |txs|
    ensures res.transactionsAdded + res.transactionsIgnored == |Records(accts)|
  {
    res := LoadResults(0, 0, 0);
    accs', txs' := accounts, txs;
    var a := 0;
    while a < |accts|
      invariant 0 <= a <= |accts|
      invariant accs' == Registered(accounts, accts[..a])
      invariant txs' == Imported(txs, Records(accts[..a]))
      invariant res.accountsAdded == CountNew(accounts.Keys, accts[..a])
      invariant res.transactionsAdded == |txs'| - |txs|
      invariant res.transactionsAdded + res.transactionsIgnored == |Records(accts[..a])|
    {
      var acct := accts[a];
      PrefixStep(accounts, accts, a);
      RegisteredHas(accounts, accts[..a], acct.number);
      var accAdded := if acct.number in accs' then 0 else 1;
      accs' := RegisterOne(accs', acct);
      ImportedAppend(txs, Records(accts[..a]), RecordsOf(acct));
      var ignored;
      txs', ignored := ImportRecords(txs', acct);
      res := LoadResults(res.accountsAdded + accAdded, |txs'| - |txs|, res.transactionsIgnored + ignored);
      a := a + 1;
    }
    assert accts[..a] == accts;
  }

  /** What one more account of a file adds to each prefix summary. */
  lemma PrefixStep(accounts: map<string, Account>, accts: seq<ParsedAccount>, a: nat)
    requires a < |accts|
    ensures Registered(accounts, accts[..a + 1]) == RegisterOne(Registered(accounts, accts[..a]), accts[a])
    ensures Records(accts[..a + 1]) == Records(accts[..a]) + RecordsOf(accts[a])
    ensures CountNew(accounts.Keys, accts[..a + 1]) ==
      CountNew(accounts.Keys, accts[..a]) + if accts[a].number in accounts.Keys + AccountNumbers(accts[..a]) then 0 else 1
  {
    assert accts[..a + 1][..a] == accts[..a];
  }

  lemma ExtendsTrans(a: seq<Transaction>, b: seq<Transaction>, c: seq<Transaction>)
    requires Extends(a, b) && Extends(b, c)
    ensures Extends(a, c)
  {
    assert c[..|a|] == c[..|b|][..|a|];
  }

  lemma StoreOkRegister(accounts: map<string, Account>, txs: seq<Transaction>, a: Account)
    requires StoreOk(accounts, txs) && a.number !in accounts
    ensures StoreOk(accounts[a.number := a], txs)
  {
  }

  lemma StoreOkAppend(accounts: map<string, Account>, txs: seq<Transaction>, t: Transaction)
    requires StoreOk(accounts, txs) && t.Key() !in KeyList(txs)
    requires t.accountNumber in accounts && t.LabelsOk()
    ensures StoreOk(accounts, txs + [t])
  {
    forall i | 0 <= i < |txs| ensures txs[i].Key() != t.Key() {
      assert KeyList(txs)[i] == txs[i].Key();
    }
  }

  lemma StoreOkReplace(accounts: map<string, Account>, txs: seq<Transaction>, i: nat, t: Transaction)
    requires StoreOk(accounts, txs) && i < |txs| && t.Key() == txs[i].Key()
    requires t.LabelsOk()
    ensures StoreOk(accounts, txs[i := t])
  {
  }
}
