/** The complaint details dialog (ComplaintDetailsDialog): a status select
    initialised from the complaint, an update button and a cancel button. */
module ComplaintDetailsDialog {
  import opened Wrappers
  import opened Badges
  import opened ComplaintManagement

  /** The items of the status select. */
  const StatusOptions: seq<string> := ["Pending", "In Progress", "Resolved"]

  /** The dialog's state: the complaint shown and the status currently selected. */
  datatype Dialog = Dialog(complaint: Complaint, status: string)

  datatype Button = UpdateStatus | Cancel

  /** Opening the dialog selects the complaint's current status. */
  function Open(c: Complaint): (d: Dialog)
    ensures d.complaint == c && d.status == c.status
  {
    Dialog(c, c.status)
  }

  /** Picking an item of the select. */
  function Choose(d: Dialog, status: string): (d': Dialog)
    requires status in StatusOptions
    ensures d'.complaint == d.complaint && d'.status == status
    ensures d'.status in StatusOptions
  {
    d.(status := status)
  }

  /** What the dialog reports to the table: the update button reports the
      selected status, cancelling reports nothing. */
  function Emitted(d: Dialog, b: Button): (r: Option<string>)
    ensures r.None? <==> b == Cancel
    ensures r.Some? ==> r.value == d.status
  {
    match b
    case UpdateStatus => Some(d.status)
    case Cancel => None
  }

  /** Each item of the select gets its own badge colour in the table. */
  lemma OptionsHaveDistinctBadges()
    ensures StatusBadge(StatusOptions[0]) == Yellow
    ensures StatusBadge(StatusOptions[1]) == Blue
    ensures StatusBadge(StatusOptions[2]) == Green
  {
    assert Text.Lower("Pending") == "pending";
    assert Text.Lower("In Progress") == "in progress";
    assert Text.Lower("Resolved") == "resolved";
  }

  /** Confirming a choice changes the status of exactly the complaints that
      share the selected complaint's id, to the chosen item. */
  lemma ConfirmAppliesChoice(cs: seq<Complaint>, c: Complaint, status: string)
    requires status in StatusOptions
    ensures var r := ApplyDialogResult(cs, c, Emitted(Choose(Open(c), status), UpdateStatus));
            |r| == |cs| &&
            (forall i :: 0 <= i < |cs| && cs[i].id == c.id ==> r[i].status == status && r[i].id == c.id) &&
            (forall i :: 0 <= i < |cs| && cs[i].id != c.id ==> r[i] == cs[i])
  {
  }

  /** Confirming without choosing leaves a table with unique ids unchanged. */
  lemma ConfirmUnchangedIsNoop(cs: seq<Complaint>, c: Complaint)
    requires c in cs && UniqueIds(cs)
    ensures ApplyDialogResult(cs, c, Emitted(Open(c), UpdateStatus)) == cs
  {
    var r := ApplyDialogResult(cs, c, Emitted(Open(c), UpdateStatus));
    var k :| 0 <= k < |cs| && cs[k] == c;
    forall i | 0 <= i < |cs|
      ensures r[i] == cs[i]
    {
      if cs[i].id == c.id {
        assert i == k;
      }
    }
  }

  /** Cancelling leaves the table as it was. */
  lemma CancelIsNoop(cs: seq<Complaint>, d: Dialog)
    ensures ApplyDialogResult(cs, d.complaint, Emitted(d, Cancel)) == cs
  {
  }
}
