/** The split dialog of moneyterm/screens/transactionsplitscreen.py: one amount
    input per label the transaction carries, the remaining amount left after
    the apportioned values, and the save that writes one split per label. */
module SplitScreen {
  import opened Common
  import opened Ledger
  import Trends

  // ---------------------------------------------------------------------------
  // Apportioned values

  /** `get_value`: the magnitude of the typed amount, or zero for an empty
      input. A malformed amount makes `Decimal` raise, so none is read. */
  function GetValue(e: Entry<real>): (v: real)
    requires !e.Malformed?
    ensures v >= 0.0
    ensures e.Blank? ==> v == 0.0
    ensures e.Given? ==> v == e.value || v == -e.value
  {
    match e
    case Blank => 0.0
    case Given(x) => Abs(x)
  }

  /** Every input parses as a decimal or is empty. */
  predicate WellFormed(inputs: seq<Entry<real>>) {
    forall i :: 0 <= i < |inputs| ==> !inputs[i].Malformed?
  }

  /** `apportioned_amounts`: the value of each input, in widget order. */
  function Values(inputs: seq<Entry<real>>): (vs: seq<real>)
    requires WellFormed(inputs)
    ensures |vs| == |inputs|
    ensures forall i :: 0 <= i < |inputs| ==> vs[i] == GetValue(inputs[i])
  {
    if |inputs| == 0 then []
    else Values(inputs[..|inputs| - 1]) + [GetValue(inputs[|inputs| - 1])]
  }

  /** The amount not yet apportioned: never more than the transaction's
      magnitude, and negative exactly when the values exceed it. */
  function Remaining(amount: real, inputs: seq<Entry<real>>): (r: real)
    requires WellFormed(inputs)
    ensures r <= Abs(amount)
    ensures r + Trends.Sum(Values(inputs)) == Abs(amount)
    ensures r < 0.0 <==> Trends.Sum(Values(inputs)) > Abs(amount)
    ensures |inputs| == 0 ==> r == Abs(amount)
  {
    Trends.SumNonNegative(Values(inputs));
    Abs(amount) - Trends.Sum(Values(inputs))
  }

  /** What pressing save does: a positive remainder asks for confirmation
      first, anything else saves at once. */
  datatype SaveDecision = AskToConfirm(remaining: real) | SaveNow

  function DecideSave(remaining: real): (d: SaveDecision)
    ensures d.AskToConfirm? <==> remaining > 0.0
    ensures d.AskToConfirm? ==> d.remaining == remaining
  {
    if remaining > 0.0 then AskToConfirm(remaining) else SaveNow
  }

  // ---------------------------------------------------------------------------
  // Writing the splits

  /** One `split_transaction` call on a transaction: a label it does not carry
      is ignored. */
  function Write(t: Transaction, lab: string, v: real): (r: Transaction)
    ensures r == t.(splits := r.splits)
    ensures lab !in t.AllLabels() ==> r == t
    ensures lab in t.AllLabels() && v > 0.0 ==> r.splits == t.splits[lab := v]
    ensures lab in t.AllLabels() && v <= 0.0 ==> r.splits == t.splits - {lab}
  {
    match SetSplit(t, lab, v)
    case None => t
    case Some(u) => u
  }

  /** The calls of the save loop, label by label. */
  function WriteAll(t: Transaction, labels: seq<string>, vs: seq<real>): (r: Transaction)
    requires |labels| == |vs|
    ensures r == t.(splits := r.splits)
  {
    if |labels| == 0 then t
    else Write(WriteAll(t, labels[..|labels| - 1], vs[..|vs| - 1]), labels[|labels| - 1], vs[|vs| - 1])
  }

  /** After the save loop, a label the transaction carries holds the value of
      its last input (none when that value is zero), and every other split is
      as before. */
  lemma {:induction false} WriteAllSplits(t: Transaction, labels: seq<string>, vs: seq<real>)
    requires |labels| == |vs|
    ensures forall l :: l !in labels || l !in t.AllLabels() ==>
      (l in WriteAll(t, labels, vs).splits <==> l in t.splits)
      && (l in t.splits ==> WriteAll(t, labels, vs).splits[l] == t.splits[l])
    ensures forall i :: 0 <= i < |labels| && labels[i] !in labels[i + 1..] && labels[i] in t.AllLabels() ==>
      (vs[i] > 0.0 ==> labels[i] in WriteAll(t, labels, vs).splits && WriteAll(t, labels, vs).splits[labels[i]] == vs[i])
      && (vs[i] <= 0.0 ==> labels[i] !in WriteAll(t, labels, vs).splits)
  {
    if |labels| > 0 {
      var n := |labels| - 1;
      var init, ws := labels[..n], vs[..n];
      WriteAllSplits(t, init, ws);
      var u := WriteAll(t, init, ws);
      var r := WriteAll(t, labels, vs);
      assert r == Write(u, labels[n], vs[n]);
      forall i | 0 <= i < n && labels[i] !in labels[i + 1..] && labels[i] in t.AllLabels()
        ensures labels[i] != labels[n]
        ensures init[i] !in init[i + 1..]
      {
        assert labels[n] in labels[i + 1..];
        assert init[i + 1..] == labels[i + 1..n];
      }
    }
  }

  /** `on_mount`'s prefill of one input: the stored split of its label. */
  function PrefillEntry(lab: string, splits: map<string, real>): Entry<real> {
    if lab in splits then Given(splits[lab]) else Blank
  }

  /** Where `l` occurs in `labels`, it has a last occurrence. */
  lemma LastOccurrence(labels: seq<string>, l: string) returns (i: nat)
    requires l in labels
    ensures i < |labels| && labels[i] == l && l !in labels[i + 1..]
  {
    var j :| 0 <= j < |labels| && labels[j] == l;
    i := j;
    while l in labels[i + 1..]
      invariant i < |labels| && labels[i] == l
      decreases |labels| - i
    {
      var k :| 0 <= k < |labels[i + 1..]| && labels[i + 1..][k] == l;
      i := i + 1 + k;
    }
  }

  /** Saving the prefilled inputs unchanged stores the splits the dialog
      opened with: positive splits on labels the transaction carries survive
      the round trip exactly. */
  lemma PrefillSaveRoundTrip(t: Transaction)
    requires forall l :: l in t.splits ==> l in t.AllLabels() && t.splits[l] > 0.0
    ensures WellFormed(Prefilled(t))
    ensures WriteAll(t, t.AllLabels(), Values(Prefilled(t))) == t
  {
    var r := WriteAll(t, t.AllLabels(), Values(Prefilled(t)));
    forall l
      ensures (l in r.splits <==> l in t.splits) && (l in t.splits ==> r.splits[l] == t.splits[l])
    {
      RoundTripAt(t, l);
    }
    assert r.splits == t.splits;
  }

  /** The round trip at one label. */
  lemma RoundTripAt(t: Transaction, l: string)
    requires forall l :: l in t.splits ==> l in t.AllLabels() && t.splits[l] > 0.0
    ensures var r := WriteAll(t, t.AllLabels(), Values(Prefilled(t)));
      (l in r.splits <==> l in t.splits) && (l in t.splits ==> r.splits[l] == t.splits[l])
  {
    var labels := t.AllLabels();
    var vs := Values(Prefilled(t));
    WriteAllSplits(t, labels, vs);
    if l in labels {
      var i := LastOccurrence(labels, l);
      assert vs[i] == GetValue(PrefillEntry(l, t.splits));
    }
  }

  /** The inputs as `on_mount` leaves them. */
  function Prefilled(t: Transaction): (r: seq<Entry<real>>)
    ensures |r| == |t.AllLabels()| && WellFormed(r)
  {
    seq(|t.AllLabels()|, i requires 0 <= i < |t.AllLabels()| => PrefillEntry(t.AllLabels()[i], t.splits))
  }

  /** One step of the save loop on the store: the stored transaction under
      `key` receives the next label's value, if it carries that label. */
  lemma SaveStep(accounts: map<string, Account>, before: seq<Transaction>, cur: seq<Transaction>, after: seq<Transaction>,
                 key: TxKey, labels: seq<string>, vs: seq<real>, i: nat, ok: bool)
    requires StoreOk(accounts, cur) && |labels| == |vs| && i < |labels|
    requires |cur| == |before| && |after| == |before|
    requires forall j :: 0 <= j < |before| ==> cur[j] == if before[j].Key() == key then WriteAll(before[j], labels[..i], vs[..i]) else before[j]
    requires ok <==> exists j :: 0 <= j < |cur| && cur[j].Key() == key && labels[i] in cur[j].AllLabels()
    requires forall j :: 0 <= j < |cur| ==> after[j] == if ok && cur[j].Key() == key then SetSplit(cur[j], labels[i], vs[i]).value else cur[j]
    ensures forall j :: 0 <= j < |before| ==> after[j] == if before[j].Key() == key then WriteAll(before[j], labels[..i + 1], vs[..i + 1]) else before[j]
  {
    forall j | 0 <= j < |before| && before[j].Key() == key
      ensures after[j] == WriteAll(before[j], labels[..i + 1], vs[..i + 1])
    {
      assert labels[..i + 1][..i] == labels[..i] && vs[..i + 1][..i] == vs[..i];
      assert WriteAll(before[j], labels[..i + 1], vs[..i + 1]) == Write(cur[j], labels[i], vs[i]);
    }
  }

  // ---------------------------------------------------------------------------
  // The dialog

  class TransactionSplitScreen {
    const ledger: Ledger
    const transaction: Transaction
    /** The labels offered, one input each: the six lists concatenated. */
    const labels: seq<string>
    /** The text of each label's input. */
    var inputs: seq<Entry<real>>
    /** `self.remaining_amount`, and the save button's disabled flag. */
    var remaining: real
    var saveDisabled: bool

    /** The save button is disabled exactly while the remainder is negative;
        while every input parses, the remainder is the one of the inputs. */
    ghost predicate Valid()
      reads this
    {
      labels == transaction.AllLabels() && |inputs| == |labels|
      && saveDisabled == (remaining < 0.0)
      && (WellFormed(inputs) ==> remaining == Remaining(transaction.amount, inputs))
    }

    /** `__init__`, `compose` and `on_mount`: each input shows the label's
        stored split, and the breakdown reflects those values (the change
        events the prefill raises are handled here). */
    constructor (l: Ledger, t: Transaction)
      ensures Valid()
      ensures ledger == l && transaction == t && inputs == Prefilled(t)
      ensures remaining == Remaining(t.amount, Prefilled(t)) && saveDisabled == (remaining < 0.0)
    {
      ledger := l;
      transaction := t;
      labels := t.AllLabels();
      remaining := Abs(t.amount);
      var ins := seq(|t.AllLabels()|, _ => Blank);
      for i := 0 to |ins|
        invariant |ins| == |t.AllLabels()|
        invariant forall j :: 0 <= j < |ins| ==> ins[j] == if j < i then PrefillEntry(t.AllLabels()[j], t.splits) else Blank
      {
        var lab := t.AllLabels()[i];
        if lab in t.splits {
          ins := ins[i := Given(t.splits[lab])];
        }
      }
      inputs := ins;
      saveDisabled := false;
      new;
      UpdateBreakdown();
    }

    /** `update_breakdown`: with at least one label the remainder is recomputed
        from every input; the save button follows its sign. */
    method UpdateBreakdown()
      requires |inputs| == |labels| && WellFormed(inputs)
      modifies this
      ensures inputs == old(inputs)
      ensures remaining == if |inputs| > 0 then Remaining(transaction.amount, inputs) else old(remaining)
      ensures saveDisabled == (remaining < 0.0)
    {
      var apportioned: seq<real> := [];
      for i := 0 to |inputs|
        invariant apportioned == Values(inputs[..i])
      {
        assert inputs[..i + 1][..i] == inputs[..i];
        apportioned := apportioned + [GetValue(inputs[i])];
      }
      assert inputs[..|inputs|] == inputs;
      if |apportioned| > 0 {
        remaining := Abs(transaction.amount) - Trends.Sum(apportioned);
      }
      saveDisabled := remaining < 0.0;
    }

    /** `on_input_changed_update_breakdown`: the input takes the new text; the
        breakdown is recomputed only when that text parses. The other inputs
        must parse, or reading them raises. */
    method OnInputChanged(i: nat, e: Entry<real>)
      requires Valid() && i < |inputs|
      requires forall j :: 0 <= j < |inputs| && j != i ==> !inputs[j].Malformed?
      modifies this
      ensures Valid()
      ensures inputs == old(inputs)[i := e]
      ensures e.Malformed? ==> remaining == old(remaining) && saveDisabled == old(saveDisabled)
      ensures !e.Malformed? ==> remaining == Remaining(transaction.amount, inputs)
    {
      inputs := inputs[i := e];
      if !e.Malformed? {
        UpdateBreakdown();
      }
    }

    /** `save_transaction_splits`: a declined confirmation changes nothing;
        otherwise every offered label gets its input's value written to the
        stored transaction, which nothing else in the store feels. */
    method SaveTransactionSplits(confirm: bool)
      requires Valid() && WellFormed(inputs) && ledger.Valid()
      modifies ledger
      ensures ledger.Valid() && ledger.accounts == old(ledger.accounts)
      ensures !confirm ==> ledger.transactions == old(ledger.transactions)
      ensures |ledger.transactions| == |old(ledger.transactions)|
      ensures confirm ==> forall j :: 0 <= j < |ledger.transactions| ==>
        ledger.transactions[j] ==
          if old(ledger.transactions)[j].Key() == transaction.Key()
          then WriteAll(old(ledger.transactions)[j], labels, Values(inputs))
          else old(ledger.transactions)[j]
    {
      if !confirm {
        return;
      }
      var vs := Values(inputs);
      ghost var before := ledger.transactions;
      for i := 0 to |labels|
        invariant ledger.Valid() && ledger.accounts == old(ledger.accounts)
        invariant |ledger.transactions| == |before|
        invariant forall j :: 0 <= j < |before| ==>
          ledger.transactions[j] == if before[j].Key() == transaction.Key() then WriteAll(before[j], labels[..i], vs[..i]) else before[j]
      {
        ghost var cur := ledger.transactions;
        var ok := ledger.SplitTransaction(transaction.accountNumber, transaction.txid, labels[i], GetValue(inputs[i]));
        SaveStep(ledger.accounts, before, cur, ledger.transactions, transaction.Key(), labels, vs, i, ok);
      }
      assert labels[..|labels|] == labels && vs[..|vs|] == vs;
    }

    /** `on_save_button_button_press`: the button is enabled, so the values
        fit the amount; a positive remainder asks first, none saves at once. */
    method OnSaveButtonPress() returns (d: SaveDecision)
      requires Valid() && !saveDisabled && WellFormed(inputs) && ledger.Valid()
      modifies ledger
      ensures d == DecideSave(remaining)
      ensures Trends.Sum(Values(inputs)) <= Abs(transaction.amount)
      ensures ledger.Valid() && ledger.accounts == old(ledger.accounts)
      ensures d.AskToConfirm? ==> ledger.transactions == old(ledger.transactions)
      ensures |ledger.transactions| == |old(ledger.transactions)|
      ensures d.SaveNow? ==> forall j :: 0 <= j < |ledger.transactions| ==>
        ledger.transactions[j] ==
          if old(ledger.transactions)[j].Key() == transaction.Key()
          then WriteAll(old(ledger.transactions)[j], labels, Values(inputs))
          else old(ledger.transactions)[j]
    {
      d := DecideSave(remaining);
      if d.SaveNow? {
        SaveTransactionSplits(true);
      }
    }
  }
}
