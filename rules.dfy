/** The match rule of moneyterm/widgets/labeler.py (`MatchFields`), the test of
    a transaction against a rule (`check_transaction_match`), the validation a
    rule passes before it is saved (`validate_match_fields`), and the rule
    prefilled from a transaction row. */
module Rules {
  import opened Common
  import opened Text
  import opened Ledger

  /** `MatchFields`: the field values of the rule form, as saved in the catalog. */
  datatype Rule = Rule(
    startDate: Entry<Date>, endDate: Entry<Date>,
    memo: string, memoExact: bool, payee: string, payeeExact: bool,
    amountMin: Entry<real>, amountMax: Entry<real>, txType: string,
    matchName: string, color: string, alias: string)

  /** Every non-empty date and amount field parses. */
  predicate Parses(r: Rule) {
    !r.startDate.Malformed? && !r.endDate.Malformed? && !r.amountMin.Malformed? && !r.amountMax.Malformed?
  }

  /** The seven fields a rule tests. */
  datatype Field = StartDate | EndDate | Memo | Payee | AmountMin | AmountMax | TxType

  /** A field left empty in the rule. */
  predicate IsBlank(r: Rule, f: Field) {
    match f
    case StartDate => r.startDate.Blank?
    case EndDate => r.endDate.Blank?
    case Memo => r.memo == ""
    case Payee => r.payee == ""
    case AmountMin => r.amountMin.Blank?
    case AmountMax => r.amountMax.Blank?
    case TxType => r.txType == ""
  }

  /** The memo/payee test: with the exact flag, equality after case folding;
      otherwise the folded rule text occurs in the folded transaction text. */
  predicate TextAccepts(ruleText: string, exact: bool, txText: string) {
    if exact then Fold(ruleText) == Fold(txText) else Contains(Fold(txText), Fold(ruleText))
  }

  /** The field is given in the rule and the transaction fails it. Dates and
      amounts are inclusive bounds; the type is compared case-sensitively. */
  predicate Fails(t: Transaction, r: Rule, f: Field) {
    match f
    case StartDate => r.startDate.Given? && DateLt(t.date, r.startDate.value)
    case EndDate => r.endDate.Given? && DateLt(r.endDate.value, t.date)
    case Memo => r.memo != "" && !TextAccepts(r.memo, r.memoExact, t.memo)
    case Payee => r.payee != "" && !TextAccepts(r.payee, r.payeeExact, t.payee)
    case AmountMin => r.amountMin.Given? && t.amount < r.amountMin.value
    case AmountMax => r.amountMax.Given? && t.amount > r.amountMax.value
    case TxType => r.txType != "" && r.txType != t.txType
  }

  /** `check_transaction_match`: the fields are tested in order and the first
      failing one answers false. `None` stands for the exception the source
      raises when it reaches a date or amount text that does not parse. */
  function CheckTransactionMatch(t: Transaction, r: Rule): (res: Option<bool>)
    ensures Parses(r) ==> res.Some?
    ensures res.None? ==> !Parses(r)
    ensures res == Some(true) <==> Parses(r) && forall f :: !Fails(t, r, f)
    ensures res == Some(false) ==> exists f :: Fails(t, r, f)
    ensures Parses(r) && (exists f :: Fails(t, r, f)) ==> res == Some(false)
  {
    if r.startDate.Malformed? then None
    else if r.startDate.Given? && DateLt(t.date, r.startDate.value) then
      assert Fails(t, r, StartDate); Some(false)
    else if r.endDate.Malformed? then None
    else if r.endDate.Given? && DateLt(r.endDate.value, t.date) then
      assert Fails(t, r, EndDate); Some(false)
    else if r.memo != "" && !TextAccepts(r.memo, r.memoExact, t.memo) then
      assert Fails(t, r, Memo); Some(false)
    else if r.payee != "" && !TextAccepts(r.payee, r.payeeExact, t.payee) then
      assert Fails(t, r, Payee); Some(false)
    else if r.amountMin.Malformed? then None
    else if r.amountMin.Given? && t.amount < r.amountMin.value then
      assert Fails(t, r, AmountMin); Some(false)
    else if r.amountMax.Malformed? then None
    else if r.amountMax.Given? && t.amount > r.amountMax.value then
      assert Fails(t, r, AmountMax); Some(false)
    else if r.txType != "" && r.txType != t.txType then
      assert Fails(t, r, TxType); Some(false)
    else Some(true)
  }

  predicate Matches(t: Transaction, r: Rule) {
    CheckTransactionMatch(t, r) == Some(true)
  }

  /** An empty field imposes no constraint: a rule whose fields are all empty
      matches every transaction. */
  lemma BlankRuleMatchesAll(t: Transaction, r: Rule)
    requires forall f :: IsBlank(r, f)
    ensures Matches(t, r)
  {
    assert IsBlank(r, StartDate) && IsBlank(r, EndDate) && IsBlank(r, AmountMin) && IsBlank(r, AmountMax);
    forall f ensures !Fails(t, r, f) {
      assert IsBlank(r, f);
    }
  }

  /** The test reads only the date, memo, payee, amount and type. */
  lemma MatchesFrame(t: Transaction, u: Transaction, r: Rule)
    requires u.date == t.date && u.memo == t.memo && u.payee == t.payee
    requires u.amount == t.amount && u.txType == t.txType
    ensures CheckTransactionMatch(u, r) == CheckTransactionMatch(t, r)
  {
  }

  // ---------------------------------------------------------------------------
  // Validation of the rule form

  /** An input with `valid_empty=True` and the date-format or decimal validator:
      empty is valid, otherwise the text must parse. */
  predicate InputValid<T>(e: Entry<T>) {
    !e.Malformed?
  }

  /** `validate_end_date_after_start_date`: true without a start date;
      otherwise both texts must parse (else false) and start <= end. */
  predicate ValidateEndDateAfterStartDate(start: Entry<Date>, end: Entry<Date>) {
    match start
    case Blank => true
    case Malformed => false
    case Given(s) => end.Given? && DateLe(s, end.value)
  }

  /** The end-date input: empty is valid, otherwise both of its validators. */
  predicate EndInputValid(start: Entry<Date>, end: Entry<Date>) {
    end.Blank? || (InputValid(end) && ValidateEndDateAfterStartDate(start, end))
  }

  /** Memo, payee and both amount inputs are all empty. */
  predicate NothingToMatch(f: Rule) {
    f.memo == "" && f.payee == "" && f.amountMin.Blank? && f.amountMax.Blank?
  }

  /** `validate_match_fields` as written: the inputs it runs the validators of
      are the start date, the end date and the lower amount only. */
  predicate ValidateMatchFieldsAsWritten(f: Rule) {
    f.matchName != ""
    && InputValid(f.startDate) && EndInputValid(f.startDate, f.endDate) && InputValid(f.amountMin)
    && !NothingToMatch(f)
  }

  /** `validate_match_fields` with the upper amount input validated like the
      lower one: what a saved rule needs for `check_transaction_match` to
      answer. */
  function ValidateMatchFields(f: Rule): (ok: bool)
    ensures ok <==> (f.matchName != "" && Parses(f) && !NothingToMatch(f)
                     && (f.startDate.Given? && f.endDate.Given? ==> DateLe(f.startDate.value, f.endDate.value)))
    ensures ok ==> forall t :: CheckTransactionMatch(t, f).Some?
  {
    ValidateMatchFieldsAsWritten(f) && InputValid(f.amountMax)
  }

  /** The form of the finding: a match name, an upper amount that does not
      parse (such as "1..2", which the input's character filter lets through),
      every other field empty. */
  const UnparsableMaxRule := Rule(Blank, Blank, "", false, "", false, Blank, Malformed, "", "m", "", "")

  /** As written, validation accepts a rule whose upper amount does not parse,
      and testing any transaction against the saved rule raises. */
  lemma AsWrittenAcceptsUnparsableMax(t: Transaction)
    ensures ValidateMatchFieldsAsWritten(UnparsableMaxRule)
    ensures CheckTransactionMatch(t, UnparsableMaxRule).None?
    ensures !ValidateMatchFields(UnparsableMaxRule)
  {
  }

  // ---------------------------------------------------------------------------
  // Prefill from a transaction row

  /** `on_transaction_table_row_sent`: both dates become the transaction's date,
      memo and payee its own texts (not exact), both amount bounds its amount,
      and the type its type; name, color and alias keep the form's values. The
      date and amount are written out as text and read back, which gives the
      same values. */
  function PrefillRule(t: Transaction, form: Rule): (r: Rule)
    ensures r.matchName == form.matchName && r.color == form.color && r.alias == form.alias
    ensures !r.memoExact && !r.payeeExact
  {
    form.(startDate := Given(t.date), endDate := Given(t.date), memo := t.memo, memoExact := false,
          payee := t.payee, payeeExact := false, amountMin := Given(t.amount), amountMax := Given(t.amount),
          txType := t.txType)
  }

  /** A rule prefilled from a transaction matches it, and with a match name it
      passes validation. */
  lemma PrefillMatches(t: Transaction, form: Rule)
    ensures Parses(PrefillRule(t, form))
    ensures Matches(t, PrefillRule(t, form))
    ensures form.matchName != "" ==> ValidateMatchFields(PrefillRule(t, form))
  {
    var r := PrefillRule(t, form);
    ContainsSelf(Fold(t.memo));
    ContainsSelf(Fold(t.payee));
    forall f ensures !Fails(t, r, f) {
    }
  }
}
