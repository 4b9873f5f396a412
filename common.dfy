/** Values shared by every part of the model: optional values, the three label
    kinds, calendar dates and decimal helpers. */
module Common {

  datatype Option<+T> = None | Some(value: T) {
    function GetOr(default: T): T {
      match this
      case Some(v) => v
      case None => default
    }
  }

  /** The closed set of label kinds. The ledger's `Labels` record calls the middle
      list `categories`; the labeler calls the same kind "Expenses". */
  datatype Kind = Bills | Expenses | Incomes

  /** The order in which a catalog is iterated: the order of the keys of the
      catalog document created on first start. */
  const KindOrder: seq<Kind> := [Bills, Expenses, Incomes]

  /** The answer of a label-name dialog: the name is taken, it is empty, or it
      is accepted and handed back. */
  datatype NameDecision = AlreadyExists | EmptyName | Accepted(name: string)

  /** A date or amount text input: empty, text that parses
      (`strptime("%m/%d/%Y")` or `Decimal(...)` succeeds), or text that does
      not parse. */
  datatype Entry<T> = Blank | Given(value: T) | Malformed

  /** A calendar date, as the source's `datetime.date`. */
  datatype Date = Date(year: int, month: int, day: int)

  predicate IsLeapYear(year: int) {
    (year % 4 == 0 && year % 100 != 0) || year % 400 == 0
  }

  function DaysInMonth(year: int, month: int): int {
    if month == 2 then (if IsLeapYear(year) then 29 else 28)
    else if month == 4 || month == 6 || month == 9 || month == 11 then 30
    else 31
  }

  predicate ValidDate(d: Date) {
    1 <= d.month <= 12 && 1 <= d.day <= DaysInMonth(d.year, d.month)
  }

  /** Chronological order: year, then month, then day. */
  predicate DateLe(a: Date, b: Date) {
    a.year < b.year
    || (a.year == b.year && (a.month < b.month || (a.month == b.month && a.day <= b.day)))
  }

  predicate DateLt(a: Date, b: Date) {
    DateLe(a, b) && a != b
  }

  lemma DateLeTotal(a: Date, b: Date)
    ensures DateLe(a, b) || DateLe(b, a)
  {
  }

  lemma DateLeTrans(a: Date, b: Date, c: Date)
    requires DateLe(a, b) && DateLe(b, c)
    ensures DateLe(a, c)
  {
  }

  function Abs(x: real): (r: real)
    ensures r >= 0.0 && (r == x || r == -x)
  {
    if x < 0.0 then -x else x
  }
}
