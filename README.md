# moneyterm ledger and labelling core, in Dafny

moneyterm is a terminal personal-finance program. This model covers its core, whose main part is the transaction ledger:

- **Ledger.** It keeps the registered accounts and the transactions, keyed by (account number, transaction id), in insertion order.
  - It imports already-parsed bank statement records and ignores duplicates.
  - It answers date-scoped queries, which filter and then sort by date.
  - Each transaction carries per-kind label lists (bills, expenses, incomes), split into *auto* and *manual*.
  - Each transaction also carries a map of *splits*: an amount apportioned to a label.
- **Labeler.** It edits the label catalog: kind → label → rule name → rule.
  - A rule has optional date bounds, memo and payee text (exact or substring, case-insensitive), amount bounds and a type.
  - Its *scan and update* pass recomputes every transaction's auto labels and alias from the catalog.
- **Read-models built on the ledger:**
  - the trend statistics of one label (total, median, minimum, maximum, per-month totals);
  - the budget table (spent and remaining this month and last month);
  - the overview tables (income and bill transactions grouped by source label, with totals);
  - the split dialog (amount remaining after the apportioned values, and the save loop).
- **Dialogs:**
  - the name checks of the add-label and rename-label dialogs;
  - the quick-label dialog (label → kind map, case-insensitive search).

Modules follow the source files:

| Module | Source |
|---|---|
| `Ledger` | `ledger.py` |
| `Rules` | the rule predicate and the rule validators of `labeler.py` |
| `Labeler` | the catalog, the scan and the labeler widget |
| `Trends` | `trends.py` |
| `Budgeter` | `budgeter.py` |
| `Overview` | `overviewwidget.py` |
| `SplitScreen` | `transactionsplitscreen.py` |
| `QuickLabel` | `quicklabelscreen.py` |
| `AddLabelScreen`, `RenameLabelScreen` | the two name dialogs |

`Common`, `Text` and `OrderedDict` hold shared pieces:

- dates and `Option`;
- string order, sorting and ASCII case folding;
- Python's insertion-ordered `dict`, as an association list with unique keys.

Objects whose fields the program updates are classes with `modifies` clauses: `Ledger.Ledger`, `Labeler.Labeler`, `Budgeter.Budgeter`, `Overview.OverviewWidget`, `SplitScreen.TransactionSplitScreen` and `QuickLabel.QuickLabelScreen`.

- **Loops:** the source's loops are methods with loop invariants, each proved equal to a recursive specification function. The properties are then proved as lemmas about those functions.
- **Numbers:** `Decimal` amounts are `real`.
- **Dates:** dates are (year, month, day) triples.
- **Text inputs:** a text input that must parse is an `Entry`: blank, a parsed value, or malformed text.

## Model

| member | source | states |
|---|---|---|
| `Ledger.NewTransaction` | moneyterm/utils/ledger.py:152-162 | a newly imported transaction has the record's key, empty auto and manual label lists, no alias and no splits |
| `Ledger.Find` | moneyterm/utils/ledger.py:196-199 | the lookup by key finds nothing exactly when no stored transaction has the key, otherwise an index whose transaction has it |
| `Ledger.Select` | moneyterm/utils/ledger.py:209-254 | a scope filter keeps each transaction exactly as often as it occurs when it is in scope, and drops it otherwise |
| `Ledger.SortByDate` | moneyterm/utils/ledger.py:207 | sorting by date is a permutation of its input |
| `Ledger.SortByDateSorted` | moneyterm/utils/ledger.py:207 | sorting by date yields a list ordered by date |
| `Ledger.InsertByDateSorted` | moneyterm/utils/ledger.py:207 | inserting into a date-ordered list keeps it ordered |
| `Ledger.InsertByDateStable` | moneyterm/utils/ledger.py:207 | inserting into a date-ordered list places the new transaction after every one of the same date, and keeps their order |
| `Ledger.SortByDateStable` | moneyterm/utils/ledger.py:207 | the sort is stable: for every date, the transactions of that date come out in the order they went in |
| `Ledger.QueryCharacterised` | moneyterm/utils/ledger.py:201-254 | every query result is ordered by date and is exactly the stored transactions in scope, with multiplicity |
| `Ledger.DatesWithActivity` | moneyterm/utils/ledger.py:169-182 | a year is a key iff some transaction of the account (or of any account) falls in it; a (month, name) pair is in a year's set iff some such transaction falls in that month; each pair carries its month's name |
| `Ledger.AddLabel` | moneyterm/utils/ledger.py:256-281 | a label already in the auto or manual list of its kind leaves the transaction unchanged; otherwise it is added once to the auto list (when `auto`) or to the manual list, and nothing else changes |
| `Ledger.AddLabelKeepsLabelsOk` | moneyterm/utils/ledger.py:275-281 | adding a label keeps all six label lists sorted and puts no label twice into a manual list |
| `Ledger.AddLabelNoDuplicate` | moneyterm/utils/ledger.py:275-281 | adding a label never creates a duplicate across the auto and manual lists of the kind, and the label is present afterwards |
| `Ledger.StripManual` | moneyterm/utils/ledger.py:283-305 | stripping a label removes one occurrence from every manual list and changes nothing else |
| `Ledger.StripManualRemoves` | moneyterm/utils/ledger.py:283-305 | in a duplicate-free manual list, as the store keeps every one, the label is gone afterwards and every other label keeps its count |
| `Ledger.StripManualKeepsLabelsOk` | moneyterm/utils/ledger.py:283-305 | stripping keeps the label lists sorted and the manual lists duplicate-free |
| `Ledger.RenameIn` | moneyterm/utils/ledger.py:307-320 | a list without the old name is untouched; otherwise one old name is replaced by the new name |
| `Ledger.RenameInSorted` | moneyterm/utils/ledger.py:317-320 | renaming in a sorted list keeps it sorted |
| `Ledger.RenameInNoDup` | moneyterm/utils/ledger.py:317-320 | renaming in a duplicate-free list keeps it duplicate-free unless the list held the new name beside the old |
| `Ledger.RenameManual` | moneyterm/utils/ledger.py:307-320 | the rename applies to every manual list and leaves the rest of the transaction unchanged |
| `Ledger.RenameManualKeepsLabelsOk` | moneyterm/utils/ledger.py:315-320 | when no manual list holds both names, renaming keeps the lists sorted and the manual lists duplicate-free |
| `Ledger.SetSplit` | moneyterm/screens/transactionsplitscreen.py:172 | a label the transaction does not carry is rejected; a positive value is stored under the label; a zero value removes the label's split; nothing else changes |
| `Ledger.ValidateSplits` | moneyterm/widgets/labeler.py:572 | exactly the splits whose label the transaction still carries are kept, with their values; nothing else changes |
| `Ledger.Ledger.constructor` | moneyterm/utils/ledger.py:93-96 | a new ledger has no accounts and no transactions |
| `Ledger.Ledger.GetTxByTxid` | moneyterm/utils/ledger.py:184-199 | not-found iff no transaction has the key; otherwise the stored transaction with that account and id |
| `Ledger.Ledger.GetAllTx` | moneyterm/utils/ledger.py:201-207 | all stored transactions, ordered by date |
| `Ledger.Ledger.GetTxByAccount` | moneyterm/utils/ledger.py:209-219 | exactly the account's transactions, ordered by date |
| `Ledger.Ledger.GetTxByYear` | moneyterm/utils/ledger.py:221-234 | exactly the account's transactions of that year, ordered by date |
| `Ledger.Ledger.GetTxByMonth` | moneyterm/utils/ledger.py:236-254 | an error iff the month is outside 1..12; otherwise exactly the account's transactions of that month and year, ordered by date |
| `Ledger.Ledger.GetAllTxWithLabel` | moneyterm/utils/ledger.py:322-343 | a stored transaction is returned (as often as stored) iff the label is in any of its six lists |
| `Ledger.Ledger.FindDatesWithTxActivity` | moneyterm/utils/ledger.py:169-182 | the years and (month, name) pairs in which the store has activity for the account or for all accounts; each pair carries its month's name |
| `Ledger.Ledger.LoadOfxData` | moneyterm/utils/ledger.py:132-167 | a missing file returns zero counts and changes nothing; otherwise the accounts are registered, new-key records are appended and stored keys are kept, the account count is the number of new account numbers, and added plus ignored equals the records seen |
| `Ledger.ImportFile` | moneyterm/utils/ledger.py:144-165 | the account and record loops compute the registered accounts, the imported store and the three counts |
| `Ledger.ImportRecords` | moneyterm/utils/ledger.py:150-165 | one account's record loop: the imported store, with added plus ignored equal to the account's record count |
| `Ledger.Imported` | moneyterm/utils/ledger.py:150-165 | importing never drops a stored transaction and adds at most one per record |
| `Ledger.ImportedKeys` | moneyterm/utils/ledger.py:150-165 | import keeps the store invariant (keys unique, lists sorted, manual lists duplicate-free) and never changes a stored transaction: the old store is a prefix |
| `Ledger.ImportedKeySet` | moneyterm/utils/ledger.py:150-165 | the imported store holds exactly the old keys plus the record keys |
| `Ledger.ImportedKnown` | moneyterm/utils/ledger.py:150-165 | records whose keys are all stored already are all ignored |
| `Ledger.RegisteredKnown` | moneyterm/utils/ledger.py:144-149 | accounts whose numbers are all registered already register nothing |
| `Ledger.ReimportAddsNothing` | moneyterm/utils/ledger.py:144-165 | importing the same statement twice equals importing it once: same store, same accounts, and the second pass counts no new account |
| `Ledger.LoadTwice` | moneyterm/utils/ledger.py:132-167 | a second load of the same statement adds no account and no transaction and reports every record as ignored |
| `Ledger.ImportedAppend` | moneyterm/utils/ledger.py:144-165 | importing two record batches equals importing them one after the other |
| `Ledger.RegisteredKeys` | moneyterm/utils/ledger.py:144-149 | registration adds exactly the statement's account numbers and keeps every existing account unchanged |
| `Ledger.CountNewIsNewNumbers` | moneyterm/utils/ledger.py:145-149 | the accounts-added count is the number of distinct statement account numbers not already registered |
| `Ledger.LoadKeepsStore` | moneyterm/utils/ledger.py:132-167 | an import keeps the store invariant (unique keys, registered accounts, sorted lists, duplicate-free manual lists) |
| `Ledger.Ledger.AddLabelToTx` | moneyterm/utils/ledger.py:256-281 | found iff the key is stored; that transaction gets `AddLabel`, every other transaction and the accounts are unchanged |
| `Ledger.Ledger.RemoveLabelFromTx` | moneyterm/utils/ledger.py:283-292 | found iff the key is stored; the label is stripped from that transaction's manual lists only, and is then in none of them |
| `Ledger.Ledger.RemoveLabel` | moneyterm/utils/ledger.py:294-305 | the label is stripped from the manual lists of every transaction and is then in none of them; auto lists and accounts are unchanged |
| `Ledger.Ledger.RenameLabel` | moneyterm/utils/ledger.py:307-320 | when no manual list holds both names, every transaction's manual lists get the rename and stay duplicate-free; nothing else changes |
| `Ledger.Ledger.SplitTransaction` | moneyterm/screens/transactionsplitscreen.py:172 | accepted iff the stored transaction carries the label; only that transaction's splits change, by `SetSplit` |
| `Ledger.Ledger.ValidateSplitLabels` | moneyterm/widgets/labeler.py:572 | found iff the key is stored; that transaction's splits are pruned by `ValidateSplits` |
| `Ledger.Ledger.AddAccountAlias` | moneyterm/utils/ledger.py:345-353 | a registered account gets the alias; an unknown number changes nothing; transactions are untouched |
| `Rules.CheckTransactionMatch` | moneyterm/widgets/labeler.py:798-845 | no answer (the source raises) only for a rule whose date or amount text does not parse; true iff no field fails and false iff some non-blank field fails: dates and amounts inclusive, memo and payee exact or substring after case folding, type exact |
| `Rules.BlankRuleMatchesAll` | moneyterm/widgets/labeler.py:808-845 | blank fields impose no constraint: a rule with every field blank matches every transaction |
| `Rules.MatchesFrame` | moneyterm/widgets/labeler.py:798-845 | matching reads only the date, memo, payee, amount and type of a transaction (labels, alias and splits never matter) |
| `Rules.ValidateMatchFields` | moneyterm/widgets/labeler.py:621-711 | a rule is saved iff it has a name, every date and amount input parses, at least one of memo, payee, minimum and maximum is given, and the end date is not before the start date; a saved rule always gives `CheckTransactionMatch` an answer |
| `Rules.AsWrittenAcceptsUnparsableMax` | moneyterm/widgets/labeler.py:685-689 | the validation as written accepts a rule whose maximum amount does not parse, which the matcher cannot evaluate, and the corrected validation rejects it |
| `Rules.PrefillRule` | moneyterm/widgets/labeler.py:578-597 | the prefill keeps the form's name, colour and alias and sets memo and payee non-exact |
| `Rules.PrefillMatches` | moneyterm/widgets/labeler.py:578-597 | a rule prefilled from a transaction parses and matches that transaction, and passes validation once it is named |
| `AddLabelScreen.AddLabelButton` | moneyterm/screens/addlabelscreen.py:56-73 | already-exists iff the name is in the existing list; empty-name iff it is empty and not listed; accepted iff non-empty and new, handing back the name unchanged |
| `RenameLabelScreen.RenameLabelButton` | moneyterm/screens/renamelabelscreen.py:54-69 | the same three-way decision for the rename dialog |
| `Labeler.AllLabelNames` | moneyterm/widgets/labeler.py:329-339 | the names listed are exactly the labels of all three kinds |
| `Labeler.ScanTx` | moneyterm/widgets/labeler.py:558-572 | the scan of one transaction changes only its auto lists, alias and splits; it keeps exactly the splits whose label the rescanned transaction carries |
| `Labeler.ScanAutoLabels` | moneyterm/widgets/labeler.py:558-572 | after a scan, the auto list of a kind is sorted and duplicate-free and holds a label iff it is not manual and some rule of that label in that kind matches |
| `Labeler.ScanAlias` | moneyterm/widgets/labeler.py:570-571 | after a scan the alias is that of the last matching rule with an alias, in catalog order, and is unchanged when there is none |
| `Labeler.ScanIdempotent` | moneyterm/widgets/labeler.py:558-572 | scanning twice gives the same transaction as scanning once |
| `Labeler.ScanKeepsLabelsOk` | moneyterm/widgets/labeler.py:558-572 | a scan keeps all label lists sorted and the manual lists duplicate-free |
| `Labeler.ScanAutoStable` | moneyterm/widgets/labeler.py:558-572 | rescanning leaves every auto list as it was |
| `Labeler.ScanAliasStable` | moneyterm/widgets/labeler.py:570-571 | rescanning leaves the alias as it was |
| `Labeler.ApplyAuto` | moneyterm/widgets/labeler.py:566-569 | applying rules in order adds to a kind's auto list exactly the non-manual labels with a matching rule, keeping it sorted and duplicate-free |
| `Labeler.ApplyAlias` | moneyterm/widgets/labeler.py:570-571 | applying rules in order sets the alias of the last matching aliased rule, or keeps it |
| `Labeler.ScanMatched` | moneyterm/widgets/labeler.py:560-568 | the catalog walk matches a label of a kind iff one of that label's rules matches |
| `Labeler.ScanRules` | moneyterm/widgets/labeler.py:566-571 | the loop over one label's rules equals applying them in order |
| `Labeler.ScanLabels` | moneyterm/widgets/labeler.py:565-571 | the loop over one kind's labels equals applying their rules in order |
| `Labeler.ScanTransaction` | moneyterm/widgets/labeler.py:560-572 | the three nested loops and the split validation on one transaction compute `ScanTx` |
| `Labeler.CreateLabel` | moneyterm/widgets/labeler.py:341-354 | the new label has an empty rule set in its kind; other labels and kinds are unchanged |
| `Labeler.RemoveLabelFrom` | moneyterm/widgets/labeler.py:378-397 | the label and its rules are gone from its kind; the other labels keep their rule sets and their order, and other kinds are unchanged |
| `Labeler.RenameLabelIn` | moneyterm/widgets/labeler.py:416-433 | the new name holds the old name's rule set unchanged, the old name is gone, the other labels keep their order and a new name goes last; nothing else changes |
| `Labeler.SaveRule` | moneyterm/widgets/labeler.py:449-462 | the rule is stored under its name (overwriting one of that name); other rules, labels and kinds are unchanged |
| `Labeler.RemoveRule` | moneyterm/widgets/labeler.py:488-508 | the named rule is gone from the label; the other rules keep their values and their order, and the label order, other labels and kinds are unchanged |
| `Labeler.CreateKeepsCatalogOk` | moneyterm/widgets/labeler.py:329-354 | creating a name the add dialog accepts keeps the catalog invariant, and the name is in exactly one kind |
| `Labeler.CreateKeepsUnique` | moneyterm/widgets/labeler.py:336-339 | creation checked against all kinds keeps label names unique across kinds |
| `Labeler.RemoveKeepsCatalogOk` | moneyterm/widgets/labeler.py:378-397 | removing a label keeps the catalog invariant |
| `Labeler.SaveKeepsCatalogOk` | moneyterm/widgets/labeler.py:436-465 | saving a validated rule keeps the catalog invariant |
| `Labeler.RemoveRuleKeepsCatalogOk` | moneyterm/widgets/labeler.py:488-508 | removing a rule keeps the catalog invariant |
| `Labeler.RenameKeepsCatalogOk` | moneyterm/widgets/labeler.py:400-433 | renaming to a name that is new across all kinds keeps the catalog invariant |
| `Labeler.RenameKeepsUnique` | moneyterm/widgets/labeler.py:416-433 | renaming to a name unused in every kind keeps names unique across kinds |
| `Labeler.AsWrittenRenameDuplicatesAcrossKinds` | moneyterm/widgets/labeler.py:412-413 | with only the selected kind's labels as the existing list, the rename dialog accepts a name another kind uses, and the renamed catalog has a duplicate across kinds |
| `Labeler.RemovedLabelGone` | moneyterm/widgets/labeler.py:388-397 | for a transaction as the store keeps it, after removing a label and rescanning, the label is in no auto list of its kind and in no manual list |
| `Labeler.RemovedLabelGoneAll` | moneyterm/widgets/labeler.py:388-397 | the same for every transaction of a rescanned store |
| `Labeler.ListedWiden` | moneyterm/widgets/labeler.py:329-354 | a catalog edit that keeps every name keeps every manual label a catalog label |
| `Labeler.ScanKeepsListed` | moneyterm/widgets/labeler.py:558-572 | a rescan keeps every manual label a catalog label |
| `Labeler.ListedFreshName` | moneyterm/widgets/labeler.py:428-432 | a name the catalog does not list is in no manual list, so no manual list holds both names of a rename |
| `Labeler.RemoveKeepsListed` | moneyterm/widgets/labeler.py:388-397 | after a label leaves its kind and every manual list, every manual label is still a catalog label |
| `Labeler.RenameInMembers` | moneyterm/utils/ledger.py:315-320 | after a rename in a duplicate-free list, every label is the new name or an old label other than the old name |
| `Labeler.RenameKeepsListed` | moneyterm/widgets/labeler.py:428-432 | after a rename in the catalog and in every manual list, every manual label is still a catalog label |
| `Labeler.Labeler.constructor` | moneyterm/widgets/labeler.py:109-208 | the labeler starts with the loaded catalog (empty when there is none), the Bills kind and nothing selected; every manual label of the ledger is a catalog label |
| `Labeler.Labeler.SelectKind` | moneyterm/widgets/labeler.py:293-300 | choosing a kind clears the label and rule selection |
| `Labeler.Labeler.SelectLabel` | moneyterm/widgets/labeler.py:303-316 | choosing a label of the kind clears the rule selection |
| `Labeler.Labeler.SelectMatch` | moneyterm/widgets/labeler.py:319-326 | choosing a rule of the selected label keeps the other selections |
| `Labeler.Labeler.ScanAndUpdateTransactions` | moneyterm/widgets/labeler.py:558-576 | every stored transaction is replaced by its scan under the catalog; accounts are unchanged |
| `Labeler.Labeler.CreateNewLabel` | moneyterm/widgets/labeler.py:329-354 | created iff the name is non-empty and unused in every kind; then the label is added to the selected kind and selected; otherwise nothing changes |
| `Labeler.Labeler.RemoveSelectedLabel` | moneyterm/widgets/labeler.py:378-397 | on confirmation the selected label is removed, stripped from every manual list and every transaction rescanned, after which it is in no manual list and in no auto list of its kind; otherwise nothing changes |
| `Labeler.Labeler.RenameSelectedLabel` | moneyterm/widgets/labeler.py:400-433 | renamed iff a label is selected and the new name is non-empty and unused in every kind; then the rule set moves, manual lists are renamed and the new name is selected; otherwise nothing changes |
| `Labeler.Labeler.OnSaveButtonPress` | moneyterm/widgets/labeler.py:436-465 | with a label selected and a valid form, the rule is saved and selected and every transaction is rescanned; otherwise nothing changes |
| `Labeler.Labeler.RemoveSelectedMatch` | moneyterm/widgets/labeler.py:488-508 | on confirmation the selected rule is removed, the selection cleared and every transaction rescanned; otherwise nothing changes |
| `Trends.NextMonthStart` | moneyterm/widgets/trends.py:60-63 | the first day of the following month (December rolls to January): the earliest valid date after the day that lies in another month |
| `Trends.DayBefore` | moneyterm/widgets/trends.py:65 | the valid date immediately before a date |
| `Trends.Step` | moneyterm/widgets/trends.py:60-66 | one step of the month loop: from a first of the month, the next month's first; from a later day, the end of the same month |
| `Trends.NextMonth` | moneyterm/widgets/trends.py:60-66 | the step with its day-clamping loop computes `Step` |
| `Trends.StuckAfterFirst` | moneyterm/widgets/trends.py:64-66 | from a day after the first the loop reaches the month's last day and stays there while the end is not passed, so it never terminates |
| `Trends.MonthSpanShape` | moneyterm/widgets/trends.py:57-66 | the months from a first-of-month start begin with the start, are firsts of months one month apart, and contain a first of a month iff it lies between start and end |
| `Trends.IterateMonths` | moneyterm/widgets/trends.py:57-66 | the month loop yields exactly `MonthSpan(start, end)` |
| `Trends.Window` | moneyterm/widgets/trends.py:85-88 | the date filter keeps exactly the transactions between the optional bounds, both inclusive |
| `Trends.Amounts` | moneyterm/widgets/trends.py:100-105 | one amount per transaction: the magnitude of the subject's split if present, else of the amount; never negative |
| `Trends.SortAscending` | moneyterm/widgets/trends.py:107 | sorting the amounts gives an ascending permutation |
| `Trends.MinOf` | moneyterm/widgets/trends.py:108 | the minimum is one of the amounts and no amount is smaller |
| `Trends.MaxOf` | moneyterm/widgets/trends.py:109 | the maximum is one of the amounts and no amount is larger |
| `Trends.EarliestOf` | moneyterm/widgets/trends.py:123 | the earliest month is one of them and precedes every other |
| `Trends.LatestOf` | moneyterm/widgets/trends.py:124 | the latest month is one of them and follows every other |
| `Trends.MonthTx` | moneyterm/widgets/trends.py:128 | exactly the transactions of the month |
| `Trends.MonthTotals` | moneyterm/widgets/trends.py:126-142 | one total per month, each the month's total |
| `Trends.Analyse` | moneyterm/widgets/trends.py:83-146 | the statistics of the label's transactions in the window, and none when the window is empty |
| `Trends.AmountsAndTotal` | moneyterm/widgets/trends.py:97-106 | the amounts loop yields the amounts and their sum |
| `Trends.MonthTable` | moneyterm/widgets/trends.py:126-142 | the month loop yields the month totals |
| `Trends.MonthSum` | moneyterm/widgets/trends.py:135-140 | one month's total is the sum of its transactions' amounts |
| `Trends.MedianFacts` | moneyterm/widgets/trends.py:107-109 | the median (index `len / 2` of the sorted amounts) is one of the amounts, lies between minimum and maximum, and splits the sorted amounts into those not above and those not below it |
| `Trends.StatsFigures` | moneyterm/widgets/trends.py:97-109 | for a non-empty window the count is positive, the total non-negative and minimum ≤ median ≤ maximum |
| `Trends.StatsMonthsCover` | moneyterm/widgets/trends.py:122-126 | every transaction's month is one of the table's months |
| `Trends.StatsMonthTotals` | moneyterm/widgets/trends.py:126-142 | a month without transactions totals zero, and the month totals sum to the overall total |
| `Trends.MonthTotalsSum` | moneyterm/widgets/trends.py:126-142 | over a span covering every transaction's month, the month totals sum to the sum of the amounts |
| `Trends.EmptyMonthTotal` | moneyterm/widgets/trends.py:130-133 | a month without transactions has no month transactions and totals zero |
| `Trends.MonthStartsValid` | moneyterm/widgets/trends.py:122-124 | the first and last months are valid, the first is a first of a month, and every transaction's month lies between them |
| `Budgeter.ValidateAmountIsDecimalOrBlank` | moneyterm/widgets/budgeter.py:66-74 | a budget input is valid iff it is blank or a decimal that is not negative |
| `Budgeter.GetBudgetStatsForMonth` | moneyterm/widgets/budgeter.py:167-181 | spent is the category's spending over its transactions of the month and year (its split when present, not made positive, else the magnitude of the amount); remaining is the budget minus spent |
| `Budgeter.SpentIsTrendTotal` | moneyterm/widgets/budgeter.py:173-178 | when the category's splits are non-negative, spent equals the trend total of the same transactions and is not negative |
| `Budgeter.PreviousMonth` | moneyterm/widgets/budgeter.py:195 | last month is a valid month exactly one month earlier (January goes back to December of the previous year) |
| `Budgeter.TableRowsCarry` | moneyterm/widgets/budgeter.py:196-225 | each row is a listed category with a given budget, and its remaining figures are the budget minus the spent figures |
| `Budgeter.TableRowsCategories` | moneyterm/widgets/budgeter.py:196-199 | a row appears for a category iff it is listed and has a non-empty budget amount |
| `Budgeter.TableRowsSorted` | moneyterm/widgets/budgeter.py:196 | rows follow the sorted category order |
| `Budgeter.TableLines` | moneyterm/widgets/budgeter.py:191-229 | the table has rows in sorted category order for exactly the categories with a non-empty budget |
| `Budgeter.BuildRows` | moneyterm/widgets/budgeter.py:196-225 | the category loop builds exactly the table rows |
| `Budgeter.Budgeter.constructor` | moneyterm/widgets/budgeter.py:128-144 | the budgets are the loaded ones (none when the file is missing), with no category selected, a blank input and save enabled |
| `Budgeter.Budgeter.SelectCategory` | moneyterm/widgets/budgeter.py:99-104 | selecting nothing blanks the input; selecting a category with a budget shows it; otherwise the input is kept |
| `Budgeter.Budgeter.InputChanged` | moneyterm/widgets/budgeter.py:84-88 | save is disabled exactly while the input fails validation |
| `Budgeter.Budgeter.OnSaveBudgetsButtonPress` | moneyterm/widgets/budgeter.py:91-97 | saved iff a category is selected; then its entry is overwritten with the input; otherwise nothing changes |
| `Budgeter.Budgeter.HandleCategoryRenamed` | moneyterm/widgets/budgeter.py:231-237 | a budgeted category's entry moves to the new name unchanged and the old name is gone; other entries are kept; an unbudgeted name changes nothing |
| `Budgeter.Budgeter.HandleCategoryRemoved` | moneyterm/widgets/budgeter.py:239-245 | the category's entry is deleted and every other entry is kept |
| `Budgeter.Budgeter.UpdateBudgetsTable` | moneyterm/widgets/budgeter.py:166-229 | the rows for the sorted categories, or the "No budgets set." message when there is no row |
| `Overview.ScopeOf` | moneyterm/widgets/overviewwidget.py:41-48 | no account means everything; an account alone, with a year, or with year and month selects that scope |
| `Overview.GroupedCharacterised` | moneyterm/widgets/overviewwidget.py:49-59 | a label's group lists the scope's transactions carrying it as an income (or bill) label, in order, once per occurrence of the label in the auto and manual lists; the label is a group key iff that list is non-empty |
| `Overview.HitsNonEmpty` | moneyterm/widgets/overviewwidget.py:51-59 | a label has a group iff some scope transaction carries it among the grouped kind's labels (expense labels are never grouped) |
| `Overview.AddSourcesGet` | moneyterm/widgets/overviewwidget.py:52-59 | appending a transaction under a list of labels adds it to a label's group once per occurrence of that label |
| `Overview.GroupedTotal` | moneyterm/widgets/overviewwidget.py:74-90 | the grand total equals the scope's amounts, each counted once per label it is grouped under |
| `Overview.SourceTotalsComplete` | moneyterm/widgets/overviewwidget.py:87-88 | a source with more than one transaction gets a total row carrying the sum of its amounts |
| `Overview.SourceTotalsSound` | moneyterm/widgets/overviewwidget.py:87-88 | every source total row belongs to a source with more than one transaction and carries that source's sum |
| `Overview.TableOfGrouping` | moneyterm/widgets/overviewwidget.py:70-90 | an empty grouping gives a lone "None" row; otherwise the last row is the grand total |
| `Overview.TxLines` | moneyterm/widgets/overviewwidget.py:77-86 | one row per transaction, showing the source label on the first row only |
| `Overview.GroupBySource` | moneyterm/widgets/overviewwidget.py:49-59 | the grouping loop builds the income and bill groupings |
| `Overview.AddAll` | moneyterm/widgets/overviewwidget.py:52-55 | one inner loop appends the transaction under each of its labels |
| `Overview.MakeTable` | moneyterm/widgets/overviewwidget.py:63-92 | the running totals build exactly the table's rows |
| `Overview.OverviewWidget.constructor` | moneyterm/widgets/overviewwidget.py:14-22 | the widget starts with no scope and empty tables |
| `Overview.OverviewWidget.ScopeTransactions` | moneyterm/widgets/overviewwidget.py:40-48 | the scope dispatch returns the scope's transactions ordered by date |
| `Overview.OverviewWidget.UpdateTables` | moneyterm/widgets/overviewwidget.py:36-61 | the scope is stored and the two tables are those of the scope's income and bill groupings |
| `Overview.OverviewWidget.RefreshTables` | moneyterm/widgets/overviewwidget.py:94-96 | the tables are rebuilt for the stored scope |
| `SplitScreen.GetValue` | moneyterm/screens/transactionsplitscreen.py:126-132 | an apportioned value is the magnitude of the typed amount, or zero for an empty input |
| `SplitScreen.Values` | moneyterm/screens/transactionsplitscreen.py:138-142 | one value per input, in input order |
| `SplitScreen.Remaining` | moneyterm/screens/transactionsplitscreen.py:143-144 | remaining plus the apportioned values is the transaction's magnitude; it is negative iff the values exceed it, and it is the magnitude when there is no label |
| `SplitScreen.DecideSave` | moneyterm/screens/transactionsplitscreen.py:159-164 | a positive remainder asks for confirmation, with that amount; otherwise the splits are saved at once |
| `SplitScreen.Write` | moneyterm/screens/transactionsplitscreen.py:172 | one split call: a label the transaction does not carry is ignored; a positive value is stored; zero removes the split; nothing but the splits changes |
| `SplitScreen.WriteAllSplits` | moneyterm/screens/transactionsplitscreen.py:169-172 | after the save loop a carried label holds the value of its last input (none when zero), and the splits of every other label are as before |
| `SplitScreen.PrefillSaveRoundTrip` | moneyterm/screens/transactionsplitscreen.py:118-172 | saving the prefilled inputs unchanged gives back the transaction the dialog opened with |
| `SplitScreen.Prefilled` | moneyterm/screens/transactionsplitscreen.py:106-124 | one well-formed input per offered label |
| `SplitScreen.TransactionSplitScreen.constructor` | moneyterm/screens/transactionsplitscreen.py:87-125 | the inputs are the prefilled splits of the six label lists, and remaining and the save button reflect them |
| `SplitScreen.TransactionSplitScreen.UpdateBreakdown` | moneyterm/screens/transactionsplitscreen.py:134-151 | with at least one label the remainder is recomputed from the inputs; save is disabled exactly while it is negative |
| `SplitScreen.TransactionSplitScreen.OnInputChanged` | moneyterm/screens/transactionsplitscreen.py:153-156 | the input takes the new text; a malformed text leaves remaining and the button as they were, otherwise the remainder is that of the inputs |
| `SplitScreen.TransactionSplitScreen.SaveTransactionSplits` | moneyterm/screens/transactionsplitscreen.py:166-176 | a declined confirmation changes nothing; otherwise the stored transaction gets one split call per label, in order, and nothing else changes |
| `SplitScreen.TransactionSplitScreen.OnSaveButtonPress` | moneyterm/screens/transactionsplitscreen.py:158-164 | the decision follows the remainder; the saved values sum to at most the transaction's magnitude; with nothing remaining the splits are saved at once |
| `QuickLabel.KindMapFacts` | moneyterm/screens/quicklabelscreen.py:68-70 | the map has exactly the catalog's labels; each maps to a kind listing it; a name in several kinds maps to the last of Bills, Expenses, Incomes |
| `QuickLabel.Matching` | moneyterm/screens/quicklabelscreen.py:103 | the search keeps exactly the labels whose folded form contains the folded query |
| `QuickLabel.MatchingEmptyQuery` | moneyterm/screens/quicklabelscreen.py:103 | an empty search keeps every label |
| `QuickLabel.MatchingSorted` | moneyterm/screens/quicklabelscreen.py:103 | the search keeps the case-insensitive order |
| `QuickLabel.LabelsAreCatalogNames` | moneyterm/screens/quicklabelscreen.py:68-74 | the sorted list and the kind map hold the same labels |
| `QuickLabel.MarkAll` | moneyterm/screens/quicklabelscreen.py:69-70 | the map-filling loop assigns the kind to each label in turn |
| `QuickLabel.QuickLabelScreen.constructor` | moneyterm/screens/quicklabelscreen.py:63-82 | the list is every label sorted ignoring case, or a disabled placeholder when there is none |
| `QuickLabel.QuickLabelScreen.OnInputChanged` | moneyterm/screens/quicklabelscreen.py:96-104 | the options become the matching labels |
| `QuickLabel.QuickLabelScreen.OnOptionSelected` | moneyterm/screens/quicklabelscreen.py:106-114 | the choice comes back with its mapped kind, a kind listing it (the only one when names are unique across kinds) |
| `Text.Fold` | moneyterm/widgets/labeler.py:819-833 | case folding maps ASCII capitals to lower case and keeps length and other characters |
| `Text.SortSorted` | moneyterm/utils/ledger.py:278-281 | sorting yields a sorted list |
| `Text.Sort` | moneyterm/utils/ledger.py:278-281 | sorting is a permutation |
| `OrderedDict.Put` | moneyterm/widgets/budgeter.py:96 | a dict assignment keeps the key's position (or appends a new key), stores the value and leaves other keys unchanged |
| `OrderedDict.Remove` | moneyterm/widgets/budgeter.py:241 | a deletion removes exactly the key and keeps every other entry, in order; an absent key changes nothing |

## Left out

- Persistence: the ledger's pickle file and the JSON documents of labels and budgets are not modelled.
  - Loading becomes a parameter (`Option` of the loaded value, none for a missing file).
  - Saving is dropped.
- Statement parsing: the OFX parser is not part of this model. `LoadOfxData` takes already-parsed accounts and records, or a missing file.
- Rendering: rich tables, colours, chart data, `make_chart` and the plot are left out. So are notifications, focus, key bindings, dismissing and messages between widgets. Tables are modelled as sequences of rows.
- Clock: `datetime.now()` in the budget table becomes `month`/`year` parameters.
- Text formats: date and decimal text become an `Entry` (blank, parsed, malformed). `strptime` and `Decimal` parsing are not modelled.
- Text.Fold: Unicode `casefold`/`lower` is modelled as ASCII lower-casing only.
- Label kinds: the code disagrees with itself about their names.
  - `Labels` names its middle list `categories`.
  - The labeler reads `expenses` and passes "Bills"/"Expenses"/"Incomes" to `add_label_to_tx`, which compares against lower-case names.
  - The model uses one closed `Kind` (Bills, Expenses, Incomes), as the code evidently intends.
- Splits: `splits`, `split_transaction` and `validate_split_labels` are used by the screens and the labeler but are not defined in ledger.py.
  - `SetSplit`/`SplitTransaction` and `ValidateSplits`/`ValidateSplitLabels` are modelled after their call sites.
  - `remove_label_from_all_tx` is modelled as `RemoveLabel`.
- Ledger.Ledger.AddLabelToTx: the source raises `KeyError` for an unknown key; the model returns `found == false` and changes nothing. The same applies to `RemoveLabelFromTx` (which raises `ValueError`).
- Ledger.Ledger.GetTxByTxid: the source raises `ValueError` for an unknown key; the model returns an error value.
- Ledger.Ledger.GetTxByMonth: the source raises `ValueError` for an invalid month; the model returns an error value.
- Ledger.Imported: stated only as bounds. Its content is stated by `ImportedKeys`, `ImportedKeySet` and `ReimportAddsNothing`.
- Ledger.Ledger.RenameLabel: requires that no manual list holds both the old and the new name. The source would then keep the new name twice in that list, which the store invariant excludes. The labeler never renames to such a name (`ListedFreshName`).
- Trends.IterateMonths: requires a start on the first of a month. From a later day the source's loop never ends (`StuckAfterFirst`). The analysis always starts on a first.
- Trends.Analyse: requires every stored date to be a valid calendar date, as `datetime.date` guarantees.
- Budgeter.Budgeter.constructor: a loaded budgets document must have unique keys, as a JSON object does, and every amount must be blank or a non-negative decimal. Documents with a negative or non-decimal amount are excluded, although the source loads them (a negative one is shown, a non-decimal one raises later in `Decimal`), because the program only ever writes validated amounts. A document that is not JSON at all is modelled like a missing one.
- Budgeter.Budgeter.UpdateBudgetsTable: "No budgets set." is modelled as `None`. The category selector's options are left out, because `update_category_select` reads a "Categories" key the labels document never has.
- Budgeter: the builder and the budgeter share one budgets dict, so they are modelled as one class. A budget entry is modelled as its `monthly_budget` input.
- Overview.OverviewWidget.UpdateTables: requires a month in 1..12 when all three scope parts are set. The ledger raises otherwise, and the scope bar offers only real months.
- Overview: `on_mount` is `UpdateTables(None, None, None)`. Date formatting is not modelled.
- SplitScreen.TransactionSplitScreen.UpdateBreakdown, SaveTransactionSplits and OnSaveButtonPress: require every input to parse, because `Decimal` would raise otherwise. Change events from the prefill are folded into the constructor.
- SplitScreen.TransactionSplitScreen.OnInputChanged: requires every other input to parse, for the same reason; only the changed input may be malformed.
- SplitScreen: duplicate widget ids for a label carried twice are not modelled; each occurrence has its own input, and the last one wins on save.
- QuickLabel.QuickLabelScreen.OnOptionSelected: requires the list to be enabled and the choice to be among the shown options. Moving the highlight to the first option is not modelled.
- Labeler.Labeler.constructor: requires the loaded catalog to satisfy the catalog invariant: keys unique, every saved rule valid. It also requires every manual label of the loaded ledger to be a label of the loaded catalog. The program saves both, so a consistent pair is assumed.
- Labeler.Labeler.RenameSelectedLabel: checks the new name against all kinds (the corrected behaviour, see Findings). The code as written is `AsWrittenRenameDuplicatesAcrossKinds`.
- Labeler.Labeler.OnSaveButtonPress: uses the corrected `ValidateMatchFields`, which also validates the maximum amount (see Findings). The code as written is `AsWrittenAcceptsUnparsableMax`.
- Not modelled: the rule preview, the option lists of the label and match selectors (`update_label_select`, labeler.py:713), the table of matching transactions and `watch_*` display updates.

## Findings

| source | as written | input that shows it | evidently intended | confidence | as-written member | corrected member |
|---|---|---|---|---|---|---|
| moneyterm/widgets/labeler.py:685-689 | `validate_match_fields` runs the validators of the start date, end date and minimum amount inputs only | a rule named "m" whose only field is a maximum amount "1..2" (text the input's character filter allows, but `Decimal` rejects) | the maximum amount is validated like the minimum, so a saved rule can always be evaluated by `check_transaction_match` (which otherwise raises during every scan) | high (not executed) | `Rules.AsWrittenAcceptsUnparsableMax` | `Rules.ValidateMatchFields` |
| moneyterm/widgets/labeler.py:412-413 | the rename dialog receives only the selected kind's labels as the existing names | catalog with Bills label "a" and Incomes label "b"; renaming "b" to "a" is accepted | names stay unique across kinds, as label creation enforces with all labels (labeler.py:336-339) | medium (not executed) | `Labeler.AsWrittenRenameDuplicatesAcrossKinds` | `Labeler.RenameKeepsCatalogOk` |
