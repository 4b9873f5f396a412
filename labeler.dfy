/** The label catalog and the rule engine of moneyterm/widgets/labeler.py: the
    catalog kind -> label -> match name -> rule, the batch pass that recomputes
    every transaction's auto labels and alias, and the catalog edits with their
    cascades into the ledger. */
module Labeler {
  import opened Common
  import opened Text
  import opened OrderedDict
  import opened Ledger
  import opened Rules
  import AddLabelScreen
  import RenameLabelScreen

  /** The rules of one label, by match name. */
  type RuleSet = Dict<Rule>

  /** The labels of one kind, by name. */
  type LabelSet = Dict<RuleSet>

  /** `self.labels`: one label set per kind, iterated Bills, Expenses, Incomes. */
  datatype Catalog = Catalog(bills: LabelSet, expenses: LabelSet, incomes: LabelSet) {
    function Of(k: Kind): LabelSet {
      match k
      case Bills => bills
      case Expenses => expenses
      case Incomes => incomes
    }

    function With(k: Kind, d: LabelSet): (r: Catalog)
      ensures r.Of(k) == d
      ensures forall j :: j != k ==> r.Of(j) == Of(j)
    {
      match k
      case Bills => this.(bills := d)
      case Expenses => this.(expenses := d)
      case Incomes => this.(incomes := d)
    }
  }

  /** The catalog created when no catalog document exists. */
  const EmptyCatalog := Catalog([], [], [])

  /** A label without rules. */
  const NoRules: RuleSet := []

  /** The label names of every kind, in iteration order: the list the create
      button hands to the add-label dialog. */
  function AllLabelNames(c: Catalog): (r: seq<string>)
    ensures forall x :: x in r <==> exists k :: x in Keys(c.Of(k))
  {
    var r := Keys(c.bills) + Keys(c.expenses) + Keys(c.incomes);
    assert forall x :: x in Keys(c.Of(Bills)) || x in Keys(c.Of(Expenses)) || x in Keys(c.Of(Incomes)) ==> x in r;
    r
  }

  /** No label name is used by two kinds. */
  ghost predicate UniqueAcrossKinds(c: Catalog) {
    forall k1, k2, x :: x in Keys(c.Of(k1)) && x in Keys(c.Of(k2)) ==> k1 == k2
  }

  ghost predicate RulesParse(rules: RuleSet) {
    forall m :: m in rules ==> Parses(m.1)
  }

  ghost predicate LabelsParse(labels: LabelSet) {
    forall e :: e in labels ==> RulesParse(e.1)
  }

  /** Every saved rule can be tested: its date and amount texts parse. */
  ghost predicate CatalogParses(c: Catalog) {
    forall k :: LabelsParse(c.Of(k))
  }

  // ---------------------------------------------------------------------------
  // Scan and update

  /** One (kind, label, rule) visited by the scan's three nested loops. */
  datatype Triple = Triple(kind: Kind, lab: string, rule: Rule)

  function RuleTriples(k: Kind, lab: string, rules: seq<(string, Rule)>): (r: seq<Triple>)
    ensures |r| == |rules|
    ensures forall i :: 0 <= i < |rules| ==> r[i] == Triple(k, lab, rules[i].1)
  {
    seq(|rules|, i requires 0 <= i < |rules| => Triple(k, lab, rules[i].1))
  }

  function LabelTriples(k: Kind, labels: seq<(string, RuleSet)>): seq<Triple>
  {
    if |labels| == 0 then []
    else LabelTriples(k, labels[..|labels| - 1]) + RuleTriples(k, labels[|labels| - 1].0, labels[|labels| - 1].1)
  }

  function KindTriples(c: Catalog, kinds: seq<Kind>): seq<Triple>
  {
    if |kinds| == 0 then []
    else KindTriples(c, kinds[..|kinds| - 1]) + LabelTriples(kinds[|kinds| - 1], c.Of(kinds[|kinds| - 1]))
  }

  /** The rules of the catalog in the order the scan visits them. */
  function Triples(c: Catalog): seq<Triple> {
    KindTriples(c, KindOrder)
  }

  /** The body of the innermost loop: a matching rule adds its label to the
      auto list of its kind (through `add_label_to_tx`) and, when it has an
      alias, sets the transaction's alias. */
  function Step(t: Transaction, tr: Triple): Transaction {
    if !Matches(t, tr.rule) then t
    else
      var u := AddLabel(t, tr.lab, tr.kind, true);
      if tr.rule.alias != "" then u.(alias := tr.rule.alias) else u
  }

  /** The rules `trs` applied in order. Only the auto lists and the alias change. */
  function Apply(t: Transaction, trs: seq<Triple>): (r: Transaction)
    ensures r == t.(auto := r.auto, alias := r.alias)
  {
    if |trs| == 0 then t else Step(Apply(t, trs[..|trs| - 1]), trs[|trs| - 1])
  }

  /** `scan_and_update_transactions` on one transaction: the auto lists are
      cleared, every rule of the catalog is applied, and the splits are
      validated against the new labels. */
  function ScanTx(c: Catalog, t: Transaction): (r: Transaction)
    ensures r == t.(auto := r.auto, alias := r.alias, splits := r.splits)
    ensures forall l :: l in r.splits <==> l in t.splits && l in r.AllLabels()
    ensures forall l :: l in r.splits ==> r.splits[l] == t.splits[l]
  {
    ValidateSplits(Apply(t.(auto := NoLabels), Triples(c)))
  }

  /** Some visited rule of label `x` and kind `k` matches `t`. */
  ghost predicate MatchedIn(t: Transaction, trs: seq<Triple>, k: Kind, x: string) {
    exists i :: 0 <= i < |trs| && trs[i].kind == k && trs[i].lab == x && Matches(t, trs[i].rule)
  }

  /** Some rule filed under label `x` in `labels` matches `t`. */
  ghost predicate LabelMatches(labels: seq<(string, RuleSet)>, x: string, t: Transaction) {
    exists i, j :: 0 <= i < |labels| && 0 <= j < |labels[i].1| && labels[i].0 == x && Matches(t, labels[i].1[j].1)
  }

  /** A matching rule with a non-empty alias. */
  ghost predicate Aliased(t: Transaction, tr: Triple) {
    Matches(t, tr.rule) && tr.rule.alias != ""
  }

  lemma {:induction false} ApplyAppend(t: Transaction, x: seq<Triple>, y: seq<Triple>)
    ensures Apply(t, x + y) == Apply(Apply(t, x), y)
  {
    if |y| == 0 {
      assert x + y == x;
    } else {
      assert (x + y)[..|x + y| - 1] == x + y[..|y| - 1];
      ApplyAppend(t, x, y[..|y| - 1]);
    }
  }

  lemma MatchedInSnoc(t: Transaction, trs: seq<Triple>, k: Kind, x: string)
    requires |trs| > 0
    ensures MatchedIn(t, trs, k, x) <==>
      MatchedIn(t, trs[..|trs| - 1], k, x)
      || (trs[|trs| - 1].kind == k && trs[|trs| - 1].lab == x && Matches(t, trs[|trs| - 1].rule))
  {
    var p := trs[..|trs| - 1];
    if MatchedIn(t, p, k, x) {
      var i :| 0 <= i < |p| && p[i].kind == k && p[i].lab == x && Matches(t, p[i].rule);
      assert trs[i] == p[i];
    }
    if MatchedIn(t, trs, k, x) {
      var i :| 0 <= i < |trs| && trs[i].kind == k && trs[i].lab == x && Matches(t, trs[i].rule);
      if i < |p| { assert p[i] == trs[i]; }
    }
  }

  /** One rule: the label joins the auto list of its kind when the rule
      matches and the label is in neither list of that kind. */
  lemma StepAuto(a: Transaction, tr: Triple, k: Kind)
    requires NoDup(a.auto.Of(k)) && Sorted(Exact, a.auto.Of(k))
    ensures Step(a, tr).manual == a.manual
    ensures NoDup(Step(a, tr).auto.Of(k)) && Sorted(Exact, Step(a, tr).auto.Of(k))
    ensures forall x :: x in Step(a, tr).auto.Of(k) <==>
      x in a.auto.Of(k) || (x !in a.manual.Of(k) && tr.kind == k && tr.lab == x && Matches(a, tr.rule))
  {
    if Matches(a, tr.rule) && tr.kind == k && tr.lab !in a.auto.Of(k) && tr.lab !in a.manual.Of(k) {
      InsertSorted(Exact, a.auto.Of(k), tr.lab);
      InsertNoDup(a.auto.Of(k), tr.lab);
      var r := Insert(Exact, a.auto.Of(k), tr.lab);
      assert Step(a, tr).auto.Of(k) == r;
      forall x ensures x in r <==> x in a.auto.Of(k) || x == tr.lab {
        assert x in r <==> x in multiset(r);
        assert x in a.auto.Of(k) <==> x in multiset(a.auto.Of(k));
      }
    } else {
      assert Step(a, tr).auto.Of(k) == a.auto.Of(k);
    }
  }

  /** Applying rules to a transaction whose auto list of kind `k` is sorted and
      free of duplicates keeps it so, and adds exactly the labels of kind `k`
      with a matching rule that are not in the manual list of that kind. */
  lemma {:induction false} ApplyAuto(t: Transaction, trs: seq<Triple>, k: Kind)
    requires NoDup(t.auto.Of(k)) && Sorted(Exact, t.auto.Of(k))
    ensures NoDup(Apply(t, trs).auto.Of(k)) && Sorted(Exact, Apply(t, trs).auto.Of(k))
    ensures forall x :: x in Apply(t, trs).auto.Of(k) <==>
      x in t.auto.Of(k) || (x !in t.manual.Of(k) && MatchedIn(t, trs, k, x))
  {
    if |trs| > 0 {
      var p := trs[..|trs| - 1];
      var tr := trs[|trs| - 1];
      ApplyAuto(t, p, k);
      var a := Apply(t, p);
      MatchesFrame(t, a, tr.rule);
      StepAuto(a, tr, k);
      forall x ensures MatchedIn(t, trs, k, x) <==> MatchedIn(t, p, k, x) || (tr.kind == k && tr.lab == x && Matches(t, tr.rule)) {
        MatchedInSnoc(t, trs, k, x);
      }
    }
  }

  /** The alias after applying rules is the alias of the last matching rule
      that has one; without such a rule the alias is left as it was. */
  lemma {:induction false} ApplyAlias(t: Transaction, trs: seq<Triple>)
    ensures (forall i :: 0 <= i < |trs| ==> !Aliased(t, trs[i])) ==> Apply(t, trs).alias == t.alias
    ensures forall i :: 0 <= i < |trs| && Aliased(t, trs[i]) && (forall j :: i < j < |trs| ==> !Aliased(t, trs[j])) ==>
      Apply(t, trs).alias == trs[i].rule.alias
  {
    if |trs| > 0 {
      var p := trs[..|trs| - 1];
      var tr := trs[|trs| - 1];
      ApplyAlias(t, p);
      var a := Apply(t, p);
      MatchesFrame(t, a, tr.rule);
      assert forall i :: 0 <= i < |p| ==> p[i] == trs[i];
    }
  }

  lemma MatchedInAppend(t: Transaction, x: seq<Triple>, y: seq<Triple>, k: Kind, lab: string)
    ensures MatchedIn(t, x + y, k, lab) <==> MatchedIn(t, x, k, lab) || MatchedIn(t, y, k, lab)
  {
    var s := x + y;
    if MatchedIn(t, s, k, lab) {
      var i :| 0 <= i < |s| && s[i].kind == k && s[i].lab == lab && Matches(t, s[i].rule);
      if i < |x| { assert x[i] == s[i]; } else { assert y[i - |x|] == s[i]; }
    }
    if MatchedIn(t, x, k, lab) {
      var i :| 0 <= i < |x| && x[i].kind == k && x[i].lab == lab && Matches(t, x[i].rule);
      assert s[i] == x[i];
    }
    if MatchedIn(t, y, k, lab) {
      var i :| 0 <= i < |y| && y[i].kind == k && y[i].lab == lab && Matches(t, y[i].rule);
      assert s[|x| + i] == y[i];
    }
  }

  /** The visited rules of one kind's labels are exactly the rules filed under
      them. */
  lemma {:induction false} LabelTriplesMatched(k: Kind, labels: seq<(string, RuleSet)>, t: Transaction, j: Kind, x: string)
    ensures MatchedIn(t, LabelTriples(k, labels), j, x) <==> k == j && LabelMatches(labels, x, t)
  {
    if |labels| > 0 {
      var n := |labels| - 1;
      var p := labels[..n];
      LabelTriplesMatched(k, p, t, j, x);
      var rt := RuleTriples(k, labels[n].0, labels[n].1);
      assert LabelTriples(k, labels) == LabelTriples(k, p) + rt;
      MatchedInAppend(t, LabelTriples(k, p), rt, j, x);
      RuleTriplesMatched(k, labels[n].0, labels[n].1, t, j, x);
      LabelMatchesSnoc(labels, x, t);
    }
  }

  ghost predicate AnyRuleMatches(rules: RuleSet, t: Transaction) {
    exists b :: 0 <= b < |rules| && Matches(t, rules[b].1)
  }

  /** The rules of one label match for that label and kind only. */
  lemma RuleTriplesMatched(k: Kind, lab: string, rules: RuleSet, t: Transaction, j: Kind, x: string)
    ensures MatchedIn(t, RuleTriples(k, lab, rules), j, x) <==>
      k == j && lab == x && AnyRuleMatches(rules, t)
  {
    var rt := RuleTriples(k, lab, rules);
    if MatchedIn(t, rt, j, x) {
      var b :| 0 <= b < |rt| && rt[b].kind == j && rt[b].lab == x && Matches(t, rt[b].rule);
      assert rules[b].1 == rt[b].rule;
    }
    if k == j && lab == x && AnyRuleMatches(rules, t) {
      var b :| 0 <= b < |rules| && Matches(t, rules[b].1);
      assert rt[b].rule == rules[b].1;
    }
  }

  /** A label list with one more label matches where the shorter one does or
      where the new label has a matching rule. */
  lemma LabelMatchesSnoc(labels: seq<(string, RuleSet)>, x: string, t: Transaction)
    requires |labels| > 0
    ensures LabelMatches(labels, x, t) <==>
      LabelMatches(labels[..|labels| - 1], x, t)
      || (labels[|labels| - 1].0 == x && AnyRuleMatches(labels[|labels| - 1].1, t))
  {
    var n := |labels| - 1;
    var p := labels[..n];
    if LabelMatches(labels, x, t) {
      var a, b :| 0 <= a < |labels| && 0 <= b < |labels[a].1| && labels[a].0 == x && Matches(t, labels[a].1[b].1);
      if a < n {
        assert p[a] == labels[a];
      }
    }
    if LabelMatches(p, x, t) {
      var a, b :| 0 <= a < |p| && 0 <= b < |p[a].1| && p[a].0 == x && Matches(t, p[a].1[b].1);
      assert labels[a] == p[a];
    }
  }

  /** The scan visits the kinds in catalog order, each kind's labels in order. */
  lemma TriplesByKind(c: Catalog)
    ensures Triples(c) == LabelTriples(Bills, c.bills) + LabelTriples(Expenses, c.expenses) + LabelTriples(Incomes, c.incomes)
  {
    var b, e, i := LabelTriples(Bills, c.bills), LabelTriples(Expenses, c.expenses), LabelTriples(Incomes, c.incomes);
    assert [Bills][..0] == [];
    assert KindTriples(c, [Bills]) == b;
    assert [Bills, Expenses][..1] == [Bills];
    assert KindTriples(c, [Bills, Expenses]) == b + e;
    assert KindOrder[..2] == [Bills, Expenses];
  }

  lemma ScanMatched(c: Catalog, t: Transaction, k: Kind, x: string)
    ensures MatchedIn(t, Triples(c), k, x) <==> LabelMatches(c.Of(k), x, t)
  {
    TriplesByKind(c);
    var b, e, i := LabelTriples(Bills, c.bills), LabelTriples(Expenses, c.expenses), LabelTriples(Incomes, c.incomes);
    MatchedInAppend(t, b + e, i, k, x);
    MatchedInAppend(t, b, e, k, x);
    LabelTriplesMatched(Bills, c.bills, t, k, x);
    LabelTriplesMatched(Expenses, c.expenses, t, k, x);
    LabelTriplesMatched(Incomes, c.incomes, t, k, x);
  }

  lemma MatchesFrameAll(t: Transaction, u: Transaction)
    requires u.date == t.date && u.memo == t.memo && u.payee == t.payee
    requires u.amount == t.amount && u.txType == t.txType
    ensures forall r :: Matches(u, r) == Matches(t, r)
  {
    forall r ensures Matches(u, r) == Matches(t, r) {
      MatchesFrame(t, u, r);
    }
  }

  lemma LabelMatchesFrame(labels: seq<(string, RuleSet)>, x: string, t: Transaction, u: Transaction)
    requires forall r :: Matches(u, r) == Matches(t, r)
    ensures LabelMatches(labels, x, u) == LabelMatches(labels, x, t)
  {
  }

  /** After a scan, the auto list of kind `k` holds, once each and sorted, the
      labels of kind `k` with at least one matching rule that are not manual
      labels of that kind. */
  lemma ScanAutoLabels(c: Catalog, t: Transaction, k: Kind)
    ensures NoDup(ScanTx(c, t).auto.Of(k)) && Sorted(Exact, ScanTx(c, t).auto.Of(k))
    ensures forall x :: x in ScanTx(c, t).auto.Of(k) <==> x !in t.manual.Of(k) && LabelMatches(c.Of(k), x, t)
  {
    var t1 := t.(auto := NoLabels);
    ApplyAuto(t1, Triples(c), k);
    MatchesFrameAll(t, t1);
    forall x ensures MatchedIn(t1, Triples(c), k, x) <==> LabelMatches(c.Of(k), x, t) {
      ScanMatched(c, t1, k, x);
      LabelMatchesFrame(c.Of(k), x, t, t1);
    }
  }

  /** After a scan, the alias is that of the last matching rule with a
      non-empty alias, in catalog order; it is never cleared. */
  lemma ScanAlias(c: Catalog, t: Transaction)
    ensures (forall i :: 0 <= i < |Triples(c)| ==> !Aliased(t, Triples(c)[i])) ==> ScanTx(c, t).alias == t.alias
    ensures forall i :: 0 <= i < |Triples(c)| && Aliased(t, Triples(c)[i]) && (forall j :: i < j < |Triples(c)| ==> !Aliased(t, Triples(c)[j])) ==>
      ScanTx(c, t).alias == Triples(c)[i].rule.alias
  {
    var t1 := t.(auto := NoLabels);
    var trs := Triples(c);
    ApplyAlias(t1, trs);
    MatchesFrameAll(t, t1);
    forall i | 0 <= i < |trs| ensures Aliased(t1, trs[i]) == Aliased(t, trs[i]) {
    }
    assert ScanTx(c, t).alias == Apply(t1, trs).alias;
  }

  lemma NoDupSameElements(a: seq<string>, b: seq<string>)
    requires NoDup(a) && NoDup(b)
    requires forall x :: x in a <==> x in b
    ensures multiset(a) == multiset(b)
  {
    NoDupMultiset(a);
    NoDupMultiset(b);
    forall x ensures multiset(a)[x] == multiset(b)[x] {
      if x in a { assert x in multiset(a) && x in multiset(b); }
      else { assert x !in multiset(a) && x !in multiset(b); }
    }
  }

  /** Running the scan twice gives the same transaction as running it once. */
  lemma ScanIdempotent(c: Catalog, t: Transaction)
    ensures ScanTx(c, ScanTx(c, t)) == ScanTx(c, t)
  {
    var s := ScanTx(c, t);
    var s2 := ScanTx(c, s);
    ScanAutoStable(c, t, Bills);
    ScanAutoStable(c, t, Expenses);
    ScanAutoStable(c, t, Incomes);
    ScanAliasStable(c, t);
    assert s2.splits == s.splits;
  }

  /** A second scan recomputes the same auto list of each kind. */
  lemma ScanAutoStable(c: Catalog, t: Transaction, k: Kind)
    ensures ScanTx(c, ScanTx(c, t)).auto.Of(k) == ScanTx(c, t).auto.Of(k)
  {
    var s := ScanTx(c, t);
    var s2 := ScanTx(c, s);
    MatchesFrameAll(t, s);
    ScanAutoLabels(c, t, k);
    ScanAutoLabels(c, s, k);
    forall x ensures LabelMatches(c.Of(k), x, s) == LabelMatches(c.Of(k), x, t) {
      LabelMatchesFrame(c.Of(k), x, t, s);
    }
    NoDupSameElements(s2.auto.Of(k), s.auto.Of(k));
    SortedUnique(s2.auto.Of(k), s.auto.Of(k));
  }

  /** A second scan sets the same alias. */
  lemma ScanAliasStable(c: Catalog, t: Transaction)
    ensures ScanTx(c, ScanTx(c, t)).alias == ScanTx(c, t).alias
  {
    var s := ScanTx(c, t);
    MatchesFrameAll(t, s);
    ScanAlias(c, t);
    ScanAlias(c, s);
    forall i | 0 <= i < |Triples(c)| ensures Aliased(s, Triples(c)[i]) == Aliased(t, Triples(c)[i]) {
    }
    if exists i :: 0 <= i < |Triples(c)| && Aliased(t, Triples(c)[i]) {
      var i := LastAliased(t, Triples(c));
      assert s.alias == Triples(c)[i].rule.alias;
    }
  }

  /** The index of the last aliased rule, when there is one. */
  lemma LastAliased(t: Transaction, trs: seq<Triple>) returns (i: nat)
    requires exists i :: 0 <= i < |trs| && Aliased(t, trs[i])
    ensures i < |trs| && Aliased(t, trs[i]) && forall j :: i < j < |trs| ==> !Aliased(t, trs[j])
  {
    i := |trs| - 1;
    while !Aliased(t, trs[i])
      invariant 0 <= i < |trs|
      invariant forall j :: i < j < |trs| ==> !Aliased(t, trs[j])
      decreases i
    {
      if i == 0 {
        assert false;
      }
      i := i - 1;
    }
  }

  /** A scan keeps every label list sorted: the auto lists are rebuilt sorted
      and the manual lists are not touched. */
  lemma ScanKeepsLabelsOk(c: Catalog, t: Transaction)
    requires t.LabelsOk()
    ensures ScanTx(c, t).LabelsOk()
  {
    ScanAutoLabels(c, t, Bills);
    ScanAutoLabels(c, t, Expenses);
    ScanAutoLabels(c, t, Incomes);
  }

  /** The innermost loop of `scan_and_update_transactions`: the rules of one
      label, each adding the label (and setting the alias) where it matches. */
  method ScanRules(b: Transaction, k: Kind, lab: string, rules: RuleSet) returns (u: Transaction)
    ensures u == Apply(b, RuleTriples(k, lab, rules))
  {
    u := b;
    var ri := 0;
    while ri < |rules|
      invariant 0 <= ri <= |rules|
      invariant u == Apply(b, RuleTriples(k, lab, rules[..ri]))
    {
      var rule := rules[ri].1;
      ghost var done := RuleTriples(k, lab, rules[..ri]);
      assert RuleTriples(k, lab, rules[..ri + 1]) == done + [Triple(k, lab, rule)];
      assert (done + [Triple(k, lab, rule)])[..ri] == done;
      if Matches(u, rule) {
        u := AddLabel(u, lab, k, true);
        if rule.alias != "" {
          u := u.(alias := rule.alias);
        }
      }
      ri := ri + 1;
    }
    assert rules[..ri] == rules;
  }

  /** The middle loop: the labels of one kind. */
  method ScanLabels(b: Transaction, k: Kind, labels: LabelSet) returns (u: Transaction)
    ensures u == Apply(b, LabelTriples(k, labels))
  {
    u := b;
    var li := 0;
    while li < |labels|
      invariant 0 <= li <= |labels|
      invariant u == Apply(b, LabelTriples(k, labels[..li]))
    {
      var lab := labels[li].0;
      var rules := labels[li].1;
      ghost var done := LabelTriples(k, labels[..li]);
      u := ScanRules(u, k, lab, rules);
      ApplyAppend(b, done, RuleTriples(k, lab, rules));
      assert labels[..li + 1][..li] == labels[..li];
      assert LabelTriples(k, labels[..li + 1]) == done + RuleTriples(k, lab, rules);
      li := li + 1;
    }
    assert labels[..li] == labels;
  }

  /** The three nested loops of `scan_and_update_transactions` for one
      transaction, then `validate_split_labels`. The label is added with the
      same update `add_label_to_tx` performs (`AddLabel`). */
  method ScanTransaction(c: Catalog, t: Transaction) returns (u: Transaction)
    ensures u == ScanTx(c, t)
  {
    var t1 := t.(auto := NoLabels);
    u := t1;
    var ki := 0;
    while ki < |KindOrder|
      invariant 0 <= ki <= |KindOrder|
      invariant u == Apply(t1, KindTriples(c, KindOrder[..ki]))
    {
      var k := KindOrder[ki];
      var labels := c.Of(k);
      u := ScanLabels(u, k, labels);
      assert KindOrder[..ki + 1][..ki] == KindOrder[..ki];
      ApplyAppend(t1, KindTriples(c, KindOrder[..ki]), LabelTriples(k, labels));
      ki := ki + 1;
    }
    assert KindOrder[..ki] == KindOrder;
    u := ValidateSplits(u);
  }

  // ---------------------------------------------------------------------------
  // Catalog edits

  /** The catalog invariant: label names unique across kinds, every rule
      testable. */
  ghost predicate CatalogOk(c: Catalog) {
    UniqueAcrossKinds(c) && CatalogParses(c)
  }

  /** `create_new_label`: the name is filed under the kind with no rules (an
      existing label of that name would lose its rules). */
  function CreateLabel(c: Catalog, k: Kind, name: string): (r: Catalog)
    ensures Get(r.Of(k), name) == Some(NoRules)
    ensures forall l :: l != name ==> Get(r.Of(k), l) == Get(c.Of(k), l)
    ensures forall j :: j != k ==> r.Of(j) == c.Of(j)
  {
    c.With(k, Put(c.Of(k), name, NoRules))
  }

  /** The label leaves its kind together with all its rules. */
  function RemoveLabelFrom(c: Catalog, k: Kind, lab: string): (r: Catalog)
    ensures Get(r.Of(k), lab) == None
    ensures forall l :: l != lab ==> Get(r.Of(k), l) == Get(c.Of(k), l)
    ensures Keys(r.Of(k)) == KeysLess(c.Of(k), lab)
    ensures forall j :: j != k ==> r.Of(j) == c.Of(j)
  {
    c.With(k, Remove(c.Of(k), lab))
  }

  /** `rename_label`'s `labels[kind][to] = labels[kind].pop(from)`: the rule
      set moves unchanged to the new name and the old name is gone. The other
      labels keep their order; a new name goes last. */
  function RenameLabelIn(c: Catalog, k: Kind, from: string, to: string): (r: Catalog)
    requires from in Keys(c.Of(k))
    ensures Get(r.Of(k), to) == Get(c.Of(k), from) && to in Keys(r.Of(k))
    ensures from != to ==> Get(r.Of(k), from) == None
    ensures forall l :: l != from && l != to ==> Get(r.Of(k), l) == Get(c.Of(k), l)
    ensures Keys(r.Of(k)) == if to in KeysLess(c.Of(k), from) then KeysLess(c.Of(k), from) else KeysLess(c.Of(k), from) + [to]
    ensures forall j :: j != k ==> r.Of(j) == c.Of(j)
  {
    c.With(k, Put(Remove(c.Of(k), from), to, Get(c.Of(k), from).value))
  }

  /** The rules of a label present in the kind. */
  function RulesOf(c: Catalog, k: Kind, lab: string): RuleSet
    requires lab in Keys(c.Of(k))
  {
    Get(c.Of(k), lab).value
  }

  /** `on_save_button_press`: the form is filed under its match name in the
      label's rules, overwriting a rule of the same name. */
  function SaveRule(c: Catalog, k: Kind, lab: string, f: Rule): (r: Catalog)
    requires lab in Keys(c.Of(k))
    ensures Keys(r.Of(k)) == Keys(c.Of(k))
    ensures Get(RulesOf(r, k, lab), f.matchName) == Some(f)
    ensures forall m :: m != f.matchName ==> Get(RulesOf(r, k, lab), m) == Get(RulesOf(c, k, lab), m)
    ensures forall l :: l != lab ==> Get(r.Of(k), l) == Get(c.Of(k), l)
    ensures forall j :: j != k ==> r.Of(j) == c.Of(j)
  {
    c.With(k, Put(c.Of(k), lab, Put(RulesOf(c, k, lab), f.matchName, f)))
  }

  /** `remove_selected_match`: the rule leaves the label's rules. */
  function RemoveRule(c: Catalog, k: Kind, lab: string, name: string): (r: Catalog)
    requires lab in Keys(c.Of(k))
    ensures Keys(r.Of(k)) == Keys(c.Of(k))
    ensures Get(RulesOf(r, k, lab), name) == None
    ensures forall m :: m != name ==> Get(RulesOf(r, k, lab), m) == Get(RulesOf(c, k, lab), m)
    ensures Keys(RulesOf(r, k, lab)) == KeysLess(RulesOf(c, k, lab), name)
    ensures forall l :: l != lab ==> Get(r.Of(k), l) == Get(c.Of(k), l)
    ensures forall j :: j != k ==> r.Of(j) == c.Of(j)
  {
    c.With(k, Put(c.Of(k), lab, Remove(RulesOf(c, k, lab), name)))
  }

  /** A name the add-label dialog accepts against every kind's labels is new
      to the catalog; filing it keeps the catalog invariant, and the name then
      belongs to exactly one kind. */
  lemma CreateKeepsCatalogOk(c: Catalog, k: Kind, name: string)
    requires CatalogOk(c)
    requires AddLabelScreen.AddLabelButton(name, AllLabelNames(c)).Accepted?
    ensures CatalogOk(CreateLabel(c, k, name))
    ensures forall j :: name in Keys(CreateLabel(c, k, name).Of(j)) <==> j == k
  {
    CreateKeepsUnique(c, k, name);
    CreateKeepsParses(c, k, name);
  }

  lemma CreateKeepsUnique(c: Catalog, k: Kind, name: string)
    requires UniqueAcrossKinds(c) && name !in AllLabelNames(c)
    ensures UniqueAcrossKinds(CreateLabel(c, k, name))
    ensures forall j :: name in Keys(CreateLabel(c, k, name).Of(j)) <==> j == k
  {
    var r := CreateLabel(c, k, name);
    assert Keys(r.Of(k)) == Keys(c.Of(k)) + [name];
    assert forall j :: name !in Keys(c.Of(j));
    forall j, x | x in Keys(r.Of(j))
      ensures (j == k && x == name) || (x in Keys(c.Of(j)) && x != name)
    {
      if j != k { assert r.Of(j) == c.Of(j); }
    }
  }

  lemma CreateKeepsParses(c: Catalog, k: Kind, name: string)
    requires CatalogParses(c)
    ensures CatalogParses(CreateLabel(c, k, name))
  {
    assert LabelsParse(c.Of(k));
    assert RulesParse(NoRules);
    assert LabelsParse(Put(c.Of(k), name, NoRules));
  }

  lemma RemoveKeepsCatalogOk(c: Catalog, k: Kind, lab: string)
    requires CatalogOk(c)
    ensures CatalogOk(RemoveLabelFrom(c, k, lab))
  {
  }

  /** A rule that passes validation keeps every rule of the catalog testable. */
  lemma SaveKeepsCatalogOk(c: Catalog, k: Kind, lab: string, f: Rule)
    requires CatalogOk(c) && lab in Keys(c.Of(k)) && ValidateMatchFields(f)
    ensures CatalogOk(SaveRule(c, k, lab, f))
  {
    var d := c.Of(k);
    var old_rules := RulesOf(c, k, lab);
    assert old_rules == d[IndexOf(d, lab)].1;
    assert LabelsParse(d);
    assert RulesParse(old_rules);
    var rules := Put(old_rules, f.matchName, f);
    assert RulesParse(rules);
    assert LabelsParse(Put(d, lab, rules));
  }

  lemma RemoveRuleKeepsCatalogOk(c: Catalog, k: Kind, lab: string, name: string)
    requires CatalogOk(c) && lab in Keys(c.Of(k))
    ensures CatalogOk(RemoveRule(c, k, lab, name))
  {
    var d := c.Of(k);
    var old_rules := RulesOf(c, k, lab);
    assert old_rules == d[IndexOf(d, lab)].1;
    assert LabelsParse(d);
    assert RulesParse(old_rules);
    var rules := Remove(old_rules, name);
    assert RulesParse(rules);
    assert LabelsParse(Put(d, lab, rules));
  }

  /** The catalog of the rename finding: label "a" among the bills, label "b"
      among the incomes. */
  const TwoKindCatalog: Catalog := Catalog([("a", [])], [], [("b", [])])

  /** As written, the rename dialog is given only the selected kind's labels:
      renaming the income label "b" to "a" is accepted and leaves "a" in two
      kinds. */
  lemma AsWrittenRenameDuplicatesAcrossKinds()
    ensures UniqueAcrossKinds(TwoKindCatalog)
    ensures Keys(TwoKindCatalog.Of(Incomes)) == ["b"]
    ensures RenameLabelScreen.RenameLabelButton("a", Keys(TwoKindCatalog.Of(Incomes))) == Accepted("a")
    ensures !UniqueAcrossKinds(RenameLabelIn(TwoKindCatalog, Incomes, "b", "a"))
  {
    var r := RenameLabelIn(TwoKindCatalog, Incomes, "b", "a");
    assert "a" in Keys(r.Of(Incomes)) && "a" in Keys(r.Of(Bills));
  }

  /** With the rename dialog given every kind's labels, as the add-label dialog
      is, an accepted rename keeps the catalog invariant. */
  lemma RenameKeepsCatalogOk(c: Catalog, k: Kind, from: string, to: string)
    requires CatalogOk(c) && from in Keys(c.Of(k))
    requires RenameLabelScreen.RenameLabelButton(to, AllLabelNames(c)).Accepted?
    ensures CatalogOk(RenameLabelIn(c, k, from, to))
  {
    RenameKeepsUnique(c, k, from, to);
    RenameKeepsParses(c, k, from, to);
  }

  lemma RenameKeepsUnique(c: Catalog, k: Kind, from: string, to: string)
    requires UniqueAcrossKinds(c) && from in Keys(c.Of(k)) && to !in AllLabelNames(c)
    ensures UniqueAcrossKinds(RenameLabelIn(c, k, from, to))
  {
    var d := Remove(c.Of(k), from);
    var r := RenameLabelIn(c, k, from, to);
    assert Keys(r.Of(k)) == Keys(d) + [to];
    assert forall j :: to !in Keys(c.Of(j));
    forall j, x | x in Keys(r.Of(j))
      ensures (j == k && x == to) || (x in Keys(c.Of(j)) && x != to)
    {
      if j != k { assert r.Of(j) == c.Of(j); }
    }
  }

  lemma RenameKeepsParses(c: Catalog, k: Kind, from: string, to: string)
    requires CatalogParses(c) && from in Keys(c.Of(k))
    ensures CatalogParses(RenameLabelIn(c, k, from, to))
  {
    var d := Remove(c.Of(k), from);
    var v := Get(c.Of(k), from).value;
    assert v == c.Of(k)[IndexOf(c.Of(k), from)].1;
    assert LabelsParse(c.Of(k));
    assert RulesParse(v);
    assert LabelsParse(d);
    assert LabelsParse(Put(d, to, v));
  }

  /** After a label is removed from its kind and stripped from the manual
      lists of a stored transaction, the rescan leaves it in no auto list of
      that kind and in no manual list. */
  lemma RemovedLabelGone(c: Catalog, k: Kind, lab: string, t: Transaction)
    requires t.LabelsOk()
    ensures lab !in ScanTx(RemoveLabelFrom(c, k, lab), StripManual(t, lab)).auto.Of(k)
    ensures forall j :: lab !in ScanTx(RemoveLabelFrom(c, k, lab), StripManual(t, lab)).manual.Of(j)
  {
    var r := RemoveLabelFrom(c, k, lab);
    ScanAutoLabels(r, StripManual(t, lab), k);
    forall j ensures lab !in StripManual(t, lab).manual.Of(j) {
      StripManualRemoves(t, lab, j);
    }
  }

  /** `RemovedLabelGone` over a whole rescanned store. */
  lemma RemovedLabelGoneAll(c: Catalog, k: Kind, lab: string, txs: seq<Transaction>, after: seq<Transaction>)
    requires |after| == |txs|
    requires forall i :: 0 <= i < |txs| ==> txs[i].LabelsOk()
    requires forall i :: 0 <= i < |after| ==> after[i] == ScanTx(RemoveLabelFrom(c, k, lab), StripManual(txs[i], lab))
    ensures forall i, j :: 0 <= i < |after| ==> lab !in after[i].manual.Of(j) && lab !in after[i].auto.Of(k)
  {
    forall i | 0 <= i < |after|
      ensures lab !in after[i].auto.Of(k) && forall j :: lab !in after[i].manual.Of(j)
    {
      RemovedLabelGone(c, k, lab, txs[i]);
    }
  }

  // ---------------------------------------------------------------------------
  // Manual labels and the catalog

  /** Every label a stored transaction carries in a manual list is a label of
      the catalog: manual labels are picked from it, and removing or renaming a
      label carries the change into every manual list. */
  ghost predicate ManualLabelsListed(txs: seq<Transaction>, c: Catalog) {
    forall i, k, x :: 0 <= i < |txs| && x in txs[i].manual.Of(k) ==> x in AllLabelNames(c)
  }

  /** A catalog edit that keeps every name keeps every manual label listed. */
  lemma ListedWiden(txs: seq<Transaction>, c: Catalog, r: Catalog)
    requires ManualLabelsListed(txs, c)
    requires forall j, x :: x in Keys(c.Of(j)) ==> x in Keys(r.Of(j))
    ensures ManualLabelsListed(txs, r)
  {
    forall i, k, x | 0 <= i < |txs| && x in txs[i].manual.Of(k) ensures x in AllLabelNames(r) {
      assert x in AllLabelNames(c);
      var kk :| x in Keys(c.Of(kk));
      assert x in Keys(r.Of(kk));
    }
  }

  /** A rescan does not touch the manual lists. */
  lemma ScanKeepsListed(txs: seq<Transaction>, txs': seq<Transaction>, c: Catalog, r: Catalog)
    requires ManualLabelsListed(txs, r) && |txs'| == |txs|
    requires forall i :: 0 <= i < |txs| ==> txs'[i] == ScanTx(c, txs[i])
    ensures ManualLabelsListed(txs', r)
  {
    forall i, k, x | 0 <= i < |txs'| && x in txs'[i].manual.Of(k) ensures x in AllLabelNames(r) {
      assert txs'[i].manual == txs[i].manual;
    }
  }

  /** A name the catalog does not list is in no manual list, so renaming to it
      cannot put a name twice into one list. */
  lemma ListedFreshName(txs: seq<Transaction>, c: Catalog, from: string, to: string)
    requires ManualLabelsListed(txs, c) && to !in AllLabelNames(c)
    ensures forall i :: 0 <= i < |txs| ==> RenameSafe(txs[i], from, to)
  {
  }

  /** Removing a label from its kind and from every manual list keeps every
      remaining manual label listed. */
  lemma RemoveKeepsListed(txs: seq<Transaction>, txs': seq<Transaction>, c: Catalog, k: Kind, lab: string)
    requires ManualLabelsListed(txs, c) && |txs'| == |txs|
    requires forall i :: 0 <= i < |txs| ==> txs'[i] == StripManual(txs[i], lab)
    requires forall i, j :: 0 <= i < |txs'| ==> lab !in txs'[i].manual.Of(j)
    ensures ManualLabelsListed(txs', RemoveLabelFrom(c, k, lab))
  {
    var r := RemoveLabelFrom(c, k, lab);
    forall i, j, x | 0 <= i < |txs'| && x in txs'[i].manual.Of(j) ensures x in AllLabelNames(r) {
      assert x in multiset(txs'[i].manual.Of(j));
      assert x in txs[i].manual.Of(j);
      assert x in AllLabelNames(c);
      var kk :| x in Keys(c.Of(kk));
      assert x in Keys(r.Of(kk));
    }
  }

  /** After a rename the old name has left every manual list for the new one. */
  lemma RenameInMembers(l: seq<string>, from: string, to: string, x: string)
    requires NoDup(l) && from != to && x in RenameIn(l, from, to)
    ensures x == to || (x in l && x != from)
  {
    if from in l && x != to {
      NoDupMultiset(l);
      assert x in multiset(RenameIn(l, from, to));
      assert x in multiset(l);
    }
  }

  /** Renaming a label within its kind and in every manual list keeps every
      manual label listed. */
  lemma RenameKeepsListed(txs: seq<Transaction>, txs': seq<Transaction>, c: Catalog, k: Kind, from: string, to: string)
    requires ManualLabelsListed(txs, c) && from in Keys(c.Of(k)) && to !in AllLabelNames(c)
    requires |txs'| == |txs| && forall i :: 0 <= i < |txs| ==> txs[i].LabelsOk()
    requires forall i :: 0 <= i < |txs| ==> txs'[i] == RenameManual(txs[i], from, to)
    ensures ManualLabelsListed(txs', RenameLabelIn(c, k, from, to))
  {
    forall i, j, x | 0 <= i < |txs'| && x in txs'[i].manual.Of(j) ensures x in AllLabelNames(RenameLabelIn(c, k, from, to)) {
      RenameInMembers(txs[i].manual.Of(j), from, to, x);
      RenamedNameListed(c, k, from, to, x);
    }
  }

  /** The names of the renamed catalog: the new one and every other old one. */
  lemma RenamedNameListed(c: Catalog, k: Kind, from: string, to: string, x: string)
    requires from in Keys(c.Of(k)) && (x == to || (x in AllLabelNames(c) && x != from))
    ensures x in AllLabelNames(RenameLabelIn(c, k, from, to))
  {
    var r := RenameLabelIn(c, k, from, to);
    if x != to {
      var kk :| x in Keys(c.Of(kk));
      assert x in Keys(r.Of(kk));
    }
  }

  // ---------------------------------------------------------------------------
  // The widget

  class Labeler {
    const ledger: Ledger
    /** `self.labels`. */
    var catalog: Catalog
    /** The kind, label and match name chosen in the widget's selectors. */
    var selectedKind: Kind
    var selectedLabel: Option<string>
    var selectedMatch: Option<string>

    /** A selected label belongs to the selected kind, a selected match to the
        selected label. */
    ghost predicate SelectionOk()
      reads this
    {
      (selectedLabel.Some? ==> selectedLabel.value in Keys(catalog.Of(selectedKind)))
      && (selectedMatch.Some? ==> selectedLabel.Some? && selectedMatch.value in Keys(RulesOf(catalog, selectedKind, selectedLabel.value)))
    }

    ghost predicate Valid()
      reads this, ledger
    {
      ledger.Valid() && CatalogOk(catalog) && SelectionOk() && ManualLabelsListed(ledger.transactions, catalog)
    }

    /** `__init__` and `on_mount`: the catalog loaded from its document, or the
        empty catalog when there is none; the Bills kind, nothing selected.
        The ledger and the catalog are saved by the same program, so every
        manual label of the ledger is a label of the catalog. */
    constructor (l: Ledger, loaded: Option<Catalog>)
      requires l.Valid()
      requires loaded.Some? ==> CatalogOk(loaded.value)
      requires ManualLabelsListed(l.transactions, loaded.GetOr(EmptyCatalog))
      ensures Valid()
      ensures ledger == l && catalog == loaded.GetOr(EmptyCatalog)
      ensures selectedKind == Bills && selectedLabel == None && selectedMatch == None
    {
      ledger := l;
      catalog := loaded.GetOr(EmptyCatalog);
      selectedKind := Bills;
      selectedLabel := None;
      selectedMatch := None;
    }

    /** `on_manage_type_select_change`: a new kind clears the label and match
        selections. */
    method SelectKind(k: Kind)
      requires Valid()
      modifies this
      ensures Valid() && catalog == old(catalog)
      ensures selectedKind == k && selectedLabel == None && selectedMatch == None
    {
      selectedKind := k;
      selectedLabel := None;
      selectedMatch := None;
    }

    /** `on_label_select_change`: the selector offers the labels of the kind. */
    method SelectLabel(lab: Option<string>)
      requires Valid()
      requires lab.Some? ==> lab.value in Keys(catalog.Of(selectedKind))
      modifies this
      ensures Valid() && catalog == old(catalog) && selectedKind == old(selectedKind)
      ensures selectedLabel == lab && selectedMatch == None
    {
      selectedLabel := lab;
      selectedMatch := None;
    }

    /** `on_matches_option_list_select`: the list offers the selected label's
        match names. */
    method SelectMatch(name: string)
      requires Valid() && selectedLabel.Some?
      requires name in Keys(RulesOf(catalog, selectedKind, selectedLabel.value))
      modifies this
      ensures Valid() && catalog == old(catalog) && selectedKind == old(selectedKind)
      ensures selectedLabel == old(selectedLabel) && selectedMatch == Some(name)
    {
      selectedMatch := Some(name);
    }

    /** `scan_and_update_transactions`: every stored transaction is rescanned
        against the catalog. */
    method ScanAndUpdateTransactions()
      requires Valid()
      modifies ledger
      ensures Valid() && ledger.accounts == old(ledger.accounts)
      ensures |ledger.transactions| == |old(ledger.transactions)|
      ensures forall i :: 0 <= i < |ledger.transactions| ==> ledger.transactions[i] == ScanTx(catalog, old(ledger.transactions)[i])
    {
      var txs := ledger.transactions;
      var i := 0;
      while i < |txs|
        invariant 0 <= i <= |txs| && |txs| == |ledger.transactions|
        invariant ledger.accounts == old(ledger.accounts) && ledger.transactions == old(ledger.transactions)
        invariant StoreOk(ledger.accounts, txs)
        invariant forall j :: 0 <= j < |txs| ==> txs[j] == if j < i then ScanTx(catalog, ledger.transactions[j]) else ledger.transactions[j]
      {
        var u := ScanTransaction(catalog, txs[i]);
        ScanKeepsLabelsOk(catalog, txs[i]);
        StoreOkReplace(ledger.accounts, txs, i, u);
        txs := txs[i := u];
        i := i + 1;
      }
      ScanKeepsListed(ledger.transactions, txs, catalog, catalog);
      ledger.transactions := txs;
    }

    /** `on_create_new_label_button_press` with `create_new_label` as the
        dialog's callback: the dialog is given the labels of every kind, and
        an accepted name is filed under the selected kind and selected. */
    method CreateNewLabel(input: string) returns (created: bool)
      requires Valid()
      modifies this
      ensures Valid() && selectedKind == old(selectedKind)
      ensures created <==> input != "" && input !in AllLabelNames(old(catalog))
      ensures created ==> catalog == CreateLabel(old(catalog), selectedKind, input)
      ensures created ==> selectedLabel == Some(input) && selectedMatch == None
      ensures !created ==> catalog == old(catalog) && selectedLabel == old(selectedLabel) && selectedMatch == old(selectedMatch)
    {
      var d := AddLabelScreen.AddLabelButton(input, AllLabelNames(catalog));
      created := d.Accepted?;
      if created {
        CreateKeepsCatalogOk(catalog, selectedKind, input);
        ListedWiden(ledger.transactions, catalog, CreateLabel(catalog, selectedKind, input));
        Commit(CreateLabel(catalog, selectedKind, input), Some(input), None);
      }
    }

    /** `remove_selected_label`: on confirmation the selected label and its
        rules leave the catalog, the label leaves every manual list, and the
        transactions are rescanned. */
    method RemoveSelectedLabel(confirm: bool)
      requires Valid()
      modifies this, ledger
      ensures Valid() && selectedKind == old(selectedKind) && ledger.accounts == old(ledger.accounts)
      ensures old(selectedLabel).None? || !confirm ==>
        catalog == old(catalog) && selectedLabel == old(selectedLabel) && selectedMatch == old(selectedMatch)
        && ledger.transactions == old(ledger.transactions)
      ensures old(selectedLabel).Some? && confirm ==>
        catalog == RemoveLabelFrom(old(catalog), selectedKind, old(selectedLabel).value)
        && selectedLabel == None && selectedMatch == None
      ensures |ledger.transactions| == |old(ledger.transactions)|
      ensures old(selectedLabel).Some? && confirm ==> forall i :: 0 <= i < |ledger.transactions| ==>
        ledger.transactions[i] == ScanTx(catalog, StripManual(old(ledger.transactions)[i], old(selectedLabel).value))
      ensures old(selectedLabel).Some? && confirm ==> forall i, j :: 0 <= i < |ledger.transactions| ==>
        old(selectedLabel).value !in ledger.transactions[i].manual.Of(j)
        && old(selectedLabel).value !in ledger.transactions[i].auto.Of(selectedKind)
    {
      if selectedLabel.None? || !confirm {
        return;
      }
      var lab := selectedLabel.value;
      ghost var c := catalog;
      ghost var txs := ledger.transactions;
      var removed := RemoveLabelFrom(catalog, selectedKind, lab);
      RemoveKeepsCatalogOk(catalog, selectedKind, lab);
      Commit(removed, None, None);
      ledger.RemoveLabel(lab);
      RemoveKeepsListed(txs, ledger.transactions, c, selectedKind, lab);
      ScanAndUpdateTransactions();
      forall i | 0 <= i < |txs| ensures txs[i].LabelsOk() {
      }
      RemovedLabelGoneAll(c, selectedKind, lab, txs, ledger.transactions);
    }

    /** `on_rename_label_button_press` with `rename_label` as the dialog's
        callback, the dialog given the labels of every kind (see the rename
        finding): the rule set moves to the new name, which is selected, and
        the name is replaced in every manual list. No rescan follows. */
    method RenameSelectedLabel(input: string) returns (renamed: bool)
      requires Valid()
      modifies this, ledger
      ensures Valid()
      ensures selectedKind == old(selectedKind)
      ensures ledger.accounts == old(ledger.accounts)
      ensures renamed <==> old(selectedLabel).Some? && input != "" && input !in AllLabelNames(old(catalog))
      ensures !renamed ==>
        catalog == old(catalog) && selectedLabel == old(selectedLabel) && selectedMatch == old(selectedMatch)
        && ledger.transactions == old(ledger.transactions)
      ensures renamed ==>
        catalog == RenameLabelIn(old(catalog), selectedKind, old(selectedLabel).value, input)
        && selectedLabel == Some(input) && selectedMatch == None
      ensures |ledger.transactions| == |old(ledger.transactions)|
      ensures renamed ==> forall i :: 0 <= i < |ledger.transactions| ==>
        ledger.transactions[i] == RenameManual(old(ledger.transactions)[i], old(selectedLabel).value, input)
    {
      renamed := false;
      if selectedLabel.Some? && RenameLabelScreen.RenameLabelButton(input, AllLabelNames(catalog)).Accepted? {
        renamed := true;
        var from := selectedLabel.value;
        var renamedCatalog := RenameLabelIn(catalog, selectedKind, from, input);
        ghost var c := catalog;
        ghost var txs := ledger.transactions;
        RenameKeepsCatalogOk(catalog, selectedKind, from, input);
        Commit(renamedCatalog, Some(input), None);
        ListedFreshName(txs, c, from, input);
        ledger.RenameLabel(from, input);
        RenameKeepsListed(txs, ledger.transactions, c, selectedKind, from, input);
      }
    }

    /** Installs a catalog and a selection that fit it. The ledger is not
        touched; the caller restores the link between the two. */
    method Commit(c: Catalog, lab: Option<string>, m: Option<string>)
      requires CatalogOk(c)
      requires lab.Some? ==> lab.value in Keys(c.Of(selectedKind))
      requires m.Some? ==> lab.Some? && m.value in Keys(RulesOf(c, selectedKind, lab.value))
      modifies this
      ensures CatalogOk(catalog) && SelectionOk() && selectedKind == old(selectedKind)
      ensures catalog == c && selectedLabel == lab && selectedMatch == m
    {
      catalog := c;
      selectedLabel := lab;
      selectedMatch := m;
    }

    /** `on_save_button_press`: with a label selected and a form that passes
        validation, the form is filed under its match name, selected, and the
        transactions are rescanned. */
    method OnSaveButtonPress(form: Rule)
      requires Valid()
      modifies this, ledger
      ensures Valid() && selectedKind == old(selectedKind) && selectedLabel == old(selectedLabel)
      ensures ledger.accounts == old(ledger.accounts) && |ledger.transactions| == |old(ledger.transactions)|
      ensures old(selectedLabel).None? || !ValidateMatchFields(form) ==>
        catalog == old(catalog) && selectedMatch == old(selectedMatch) && ledger.transactions == old(ledger.transactions)
      ensures old(selectedLabel).Some? && ValidateMatchFields(form) ==>
        catalog == SaveRule(old(catalog), selectedKind, selectedLabel.value, form) && selectedMatch == Some(form.matchName)
        && forall i :: 0 <= i < |ledger.transactions| ==> ledger.transactions[i] == ScanTx(catalog, old(ledger.transactions)[i])
    {
      if selectedLabel.None? || !ValidateMatchFields(form) {
        return;
      }
      SaveKeepsCatalogOk(catalog, selectedKind, selectedLabel.value, form);
      ListedWiden(ledger.transactions, catalog, SaveRule(catalog, selectedKind, selectedLabel.value, form));
      Commit(SaveRule(catalog, selectedKind, selectedLabel.value, form), selectedLabel, Some(form.matchName));
      ScanAndUpdateTransactions();
    }

    /** `remove_selected_match`: on confirmation the selected rule leaves the
        selected label's rules and the transactions are rescanned. */
    method RemoveSelectedMatch(confirm: bool)
      requires Valid()
      modifies this, ledger
      ensures Valid() && selectedKind == old(selectedKind) && selectedLabel == old(selectedLabel)
      ensures ledger.accounts == old(ledger.accounts) && |ledger.transactions| == |old(ledger.transactions)|
      ensures old(selectedMatch).None? || !confirm ==>
        catalog == old(catalog) && selectedMatch == old(selectedMatch) && ledger.transactions == old(ledger.transactions)
      ensures old(selectedMatch).Some? && confirm ==>
        catalog == RemoveRule(old(catalog), selectedKind, selectedLabel.value, old(selectedMatch).value) && selectedMatch == None
        && forall i :: 0 <= i < |ledger.transactions| ==> ledger.transactions[i] == ScanTx(catalog, old(ledger.transactions)[i])
    {
      if selectedMatch.None? || !confirm {
        return;
      }
      RemoveRuleKeepsCatalogOk(catalog, selectedKind, selectedLabel.value, selectedMatch.value);
      ListedWiden(ledger.transactions, catalog, RemoveRule(catalog, selectedKind, selectedLabel.value, selectedMatch.value));
      Commit(RemoveRule(catalog, selectedKind, selectedLabel.value, selectedMatch.value), selectedLabel, None);
      ScanAndUpdateTransactions();
    }
  }
}
