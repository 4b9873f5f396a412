/** The quick-label dialog of moneyterm/screens/quicklabelscreen.py: every
    label of the catalog in one case-insensitively sorted list, a search box
    that narrows it, and a selection that hands back the label with its kind. */
module QuickLabel {
  import opened Common
  import opened Text
  import opened OrderedDict
  import opened Labeler

  /** The option shown, disabled, when the catalog has no label. */
  const Placeholder := "No labels found."

  /** `m` after `m[x] = k` for each `x` of `ls` in turn. */
  function Mark(m: map<string, Kind>, ls: seq<string>, k: Kind): (r: map<string, Kind>)
    ensures forall x :: x in r <==> x in m || x in ls
    ensures forall x :: x in r ==> r[x] == if x in ls then k else m[x]
  {
    if |ls| == 0 then m
    else Mark(m, ls[..|ls| - 1], k)[ls[|ls| - 1] := k]
  }

  /** The label -> kind map filled kind by kind, Bills, Expenses, Incomes. */
  function KindMap(c: Catalog): map<string, Kind> {
    Mark(Mark(Mark(map[], Keys(c.bills), Bills), Keys(c.expenses), Expenses), Keys(c.incomes), Incomes)
  }

  /** Every label of the catalog has an entry, and it is the last kind that
      lists the label; in a catalog whose names are unique across kinds, that
      is the one kind that lists it. */
  lemma KindMapFacts(c: Catalog)
    ensures forall x :: x in KindMap(c) <==> x in AllLabelNames(c)
    ensures forall x :: x in KindMap(c) ==> x in Keys(c.Of(KindMap(c)[x]))
    ensures forall x :: x in Keys(c.incomes) ==> KindMap(c)[x] == Incomes
    ensures forall x :: x in Keys(c.expenses) && x !in Keys(c.incomes) ==> KindMap(c)[x] == Expenses
    ensures forall x :: x in Keys(c.bills) && x !in Keys(c.expenses) && x !in Keys(c.incomes) ==> KindMap(c)[x] == Bills
    ensures UniqueAcrossKinds(c) ==> forall x, k :: x in Keys(c.Of(k)) ==> KindMap(c)[x] == k
  {
    assert AllLabelNames(c) == Keys(c.bills) + Keys(c.expenses) + Keys(c.incomes);
  }

  /** The labels the search text `query` keeps: those whose lower-cased form
      contains the lower-cased query, in their order. */
  function Matching(labels: seq<string>, query: string): (r: seq<string>)
    ensures forall x :: x in r <==> x in labels && Contains(Fold(x), Fold(query))
    ensures |r| <= |labels|
  {
    if |labels| == 0 then []
    else
      var init := Matching(labels[..|labels| - 1], query);
      var x := labels[|labels| - 1];
      assert forall y :: y in labels <==> y in labels[..|labels| - 1] || y == x;
      if Contains(Fold(x), Fold(query)) then init + [x] else init
  }

  /** An empty search keeps every label. */
  lemma {:induction false} MatchingEmptyQuery(labels: seq<string>)
    ensures Matching(labels, "") == labels
  {
    if |labels| > 0 {
      MatchingEmptyQuery(labels[..|labels| - 1]);
      ContainsEmpty(Fold(labels[|labels| - 1]));
      assert labels == labels[..|labels| - 1] + [labels[|labels| - 1]];
    }
  }

  /** Narrowing keeps the list's case-insensitive order. */
  lemma {:induction false} MatchingSorted(labels: seq<string>, query: string)
    requires Sorted(IgnoreCase, labels)
    ensures Sorted(IgnoreCase, Matching(labels, query))
  {
    if |labels| > 0 {
      var init := labels[..|labels| - 1];
      var x := labels[|labels| - 1];
      assert Sorted(IgnoreCase, init);
      MatchingSorted(init, query);
      var r := Matching(init, query);
      if Contains(Fold(x), Fold(query)) {
        forall i | 0 <= i < |r| ensures Before(IgnoreCase, r[i], x) {
          assert r[i] in init;
          var j :| 0 <= j < |init| && init[j] == r[i];
          assert labels[j] == r[i];
        }
      }
    }
  }

  /** The sorted list and the map hold the same labels. */
  lemma LabelsAreCatalogNames(c: Catalog)
    ensures forall x :: x in KindMap(c) <==> x in Sort(IgnoreCase, AllLabelNames(c))
  {
    KindMapFacts(c);
    forall x ensures x in Sort(IgnoreCase, AllLabelNames(c)) <==> x in AllLabelNames(c) {
      assert x in Sort(IgnoreCase, AllLabelNames(c)) <==> x in multiset(Sort(IgnoreCase, AllLabelNames(c)));
      assert x in AllLabelNames(c) <==> x in multiset(AllLabelNames(c));
    }
  }

  /** `m` filled from the labels `ls`, one assignment at a time. */
  method MarkAll(m: map<string, Kind>, ls: seq<string>, k: Kind) returns (r: map<string, Kind>)
    ensures r == Mark(m, ls, k)
  {
    r := m;
    for i := 0 to |ls|
      invariant r == Mark(m, ls[..i], k)
    {
      assert ls[..i + 1][..i] == ls[..i];
      r := r[ls[i] := k];
    }
    assert ls[..|ls|] == ls;
  }

  class QuickLabelScreen {
    /** The catalog document read when the dialog opened (empty when none). */
    ghost const catalog: Catalog
    /** `self.labels`: every label, sorted ignoring case. */
    var labels: seq<string>
    /** `self.label_types_map`. */
    var kindOf: map<string, Kind>
    /** The options the list shows, and whether it is disabled. */
    var options: seq<string>
    var listDisabled: bool

    ghost predicate Valid()
      reads this
    {
      labels == Sort(IgnoreCase, AllLabelNames(catalog))
      && kindOf == KindMap(catalog)
      && (forall x :: x in kindOf <==> x in labels)
      && (listDisabled <==> labels == [])
      && (!listDisabled ==> forall x :: x in options ==> x in labels)
    }

    /** `__init__` and `on_mount`: the map is filled kind by kind, the labels
        are gathered Bills, Expenses, Incomes and sorted ignoring case; an
        empty list shows the disabled placeholder. */
    constructor (loaded: Option<Catalog>)
      ensures Valid()
      ensures catalog == loaded.GetOr(EmptyCatalog)
      ensures options == if labels == [] then [Placeholder] else labels
    {
      catalog := loaded.GetOr(EmptyCatalog);
      var m: map<string, Kind> := map[];
      var ls: seq<string> := [];
      if loaded.Some? {
        var c := loaded.value;
        m := MarkAll(m, Keys(c.bills), Bills);
        m := MarkAll(m, Keys(c.expenses), Expenses);
        m := MarkAll(m, Keys(c.incomes), Incomes);
        ls := ls + Keys(c.bills);
        ls := ls + Keys(c.expenses);
        ls := ls + Keys(c.incomes);
        assert ls == AllLabelNames(c);
        ls := Sort(IgnoreCase, ls);
      } else {
        assert KindMap(EmptyCatalog) == map[];
      }
      LabelsAreCatalogNames(loaded.GetOr(EmptyCatalog));
      new;
      kindOf := m;
      labels := ls;
      if labels == [] {
        options := [Placeholder];
        listDisabled := true;
      } else {
        options := labels;
        listDisabled := false;
      }
    }

    /** `on_input_changed`: the list shows the labels matching the search. */
    method OnInputChanged(query: string)
      requires Valid()
      modifies this
      ensures Valid()
      ensures labels == old(labels) && kindOf == old(kindOf) && listDisabled == old(listDisabled)
      ensures options == Matching(labels, query)
    {
      options := Matching(labels, query);
    }

    /** `on_option_list_option_selected`: the chosen label and its kind, a kind
        under which the catalog lists it. */
    method OnOptionSelected(choice: string) returns (lab: string, kind: Kind)
      requires Valid() && !listDisabled && choice in options
      ensures lab == choice && kind == kindOf[choice]
      ensures lab in Keys(catalog.Of(kind))
      ensures UniqueAcrossKinds(catalog) ==> forall k :: lab in Keys(catalog.Of(k)) <==> k == kind
    {
      KindMapFacts(catalog);
      lab := choice;
      kind := kindOf[choice];
    }
  }
}
