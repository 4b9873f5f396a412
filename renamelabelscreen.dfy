/** The accept/reject decision of the rename-label dialog
    (moneyterm/screens/renamelabelscreen.py). */
module RenameLabelScreen {
  import opened Common

  /** `rename_label_button`: a name already in `existing` is refused first,
      then an empty name; any other name is handed back unchanged. Which names
      `existing` holds is the caller's choice. */
  function RenameLabelButton(input: string, existing: seq<string>): (d: NameDecision)
    ensures d == AlreadyExists <==> input in existing
    ensures d == EmptyName <==> input == "" && input !in existing
    ensures d.Accepted? <==> input != "" && input !in existing
    ensures d.Accepted? ==> d.name == input
  {
    if input in existing then AlreadyExists
    else if input == "" then EmptyName
    else Accepted(input)
  }
}
