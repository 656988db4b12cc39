/** The event dialog (EventDetailsDialog): its state is initialised from
    the event it is opened with, or blank in create mode; text inputs and the
    status select edit it; saving hands the seven-field record to the table. */
module EventDetailsDialog {
  import opened Wrappers
  import opened Js
  import opened Badges
  import opened EventManagement

  /** The `event` property as the dialog reads it: the id is copied as it is,
      every other property may be absent. */
  datatype EventProps = EventProps(
    id: int, title: Option<string>, date: Option<string>, location: Option<string>,
    status: Option<string>, attendees: Option<Attendance>, description: Option<string>)

  /** An event of the table, passed as the property. */
  function PropsOf(e: Event): EventProps {
    EventProps(e.id, Some(e.title), Some(e.date), Some(e.location),
               Some(e.status), Some(e.attendees), Some(e.description))
  }

  /** A number is falsy when zero, a text when empty. */
  predicate AttendanceTruthy(a: Option<Attendance>) {
    a.Some? && a.value != Count(0) && a.value != Entered("")
  }

  /** The initial state, and the state of a create dialog. */
  const Blank := Event(0, "", "", "", "Upcoming", Count(0), "")

  /** The items of the status select. */
  const StatusOptions: seq<string> := ["Upcoming", "Completed", "Cancelled"]

  /** The initialising effect: an edit dialog copies the event, with falsy
      texts as "", a falsy status as "Upcoming" and a falsy attendee count as 0;
      a create dialog, or one without an event, is blank. */
  function Init(event: Option<EventProps>, isCreateMode: bool): (r: Event)
    ensures isCreateMode || event.None? ==> r == Blank
    ensures !isCreateMode && event.Some? ==> r.id == event.value.id
    ensures !isCreateMode && event.Some? ==>
              var p := event.value;
              Defaulted(r.title, p.title, "") && Defaulted(r.date, p.date, "") &&
              Defaulted(r.location, p.location, "") && Defaulted(r.status, p.status, "Upcoming") &&
              Defaulted(r.description, p.description, "") &&
              (AttendanceTruthy(p.attendees) ==> r.attendees == p.attendees.value) &&
              (!AttendanceTruthy(p.attendees) ==> r.attendees == Count(0))
    ensures r.status != ""
  {
    if event.Some? && !isCreateMode then
      var p := event.value;
      Event(p.id, Or(p.title, ""), Or(p.date, ""), Or(p.location, ""),
            Or(p.status, "Upcoming"),
            if AttendanceTruthy(p.attendees) then p.attendees.value else Count(0),
            Or(p.description, ""))
    else Blank
  }

  /** An event none of whose properties is falsy. */
  predicate NoFalsyFields(e: Event) {
    e.title != "" && e.date != "" && e.location != "" && e.status != "" &&
    e.attendees != Count(0) && e.attendees != Entered("") && e.description != ""
  }

  /** Opening an event with no falsy property copies it exactly. */
  lemma InitCopiesEvent(e: Event)
    requires NoFalsyFields(e)
    ensures Init(Some(PropsOf(e)), false) == e
  {
  }

  /** Opening an event whose properties are all absent or falsy gives the
      blank record with the event's id. */
  lemma InitDefaultsEveryField(id: int, title: string, date: string, location: string, status: string, description: string)
    requires title == "" && date == "" && location == "" && status == "" && description == ""
    ensures Init(Some(EventProps(id, Some(title), Some(date), Some(location), Some(status), None, Some(description))), false)
            == Blank.(id := id)
    ensures Init(Some(EventProps(id, None, None, None, None, Some(Entered("")), None)), false) == Blank.(id := id)
  {
  }

  /** The named inputs of the dialog. */
  datatype Field = Title | Date | Location | Attendees | Description

  /** `handleChange`: the input named `field` takes the typed text; the
      attendee count becomes that text. */
  function Change(form: Event, field: Field, value: string): (r: Event)
    ensures r.id == form.id && r.status == form.status
    ensures field == Title ==> r.title == value
    ensures field == Date ==> r.date == value
    ensures field == Location ==> r.location == value
    ensures field == Attendees ==> r.attendees == Entered(value)
    ensures field == Description ==> r.description == value
    ensures field != Title ==> r.title == form.title
    ensures field != Date ==> r.date == form.date
    ensures field != Location ==> r.location == form.location
    ensures field != Attendees ==> r.attendees == form.attendees
    ensures field != Description ==> r.description == form.description
  {
    match field
    case Title => form.(title := value)
    case Date => form.(date := value)
    case Location => form.(location := value)
    case Attendees => form.(attendees := Entered(value))
    case Description => form.(description := value)
  }

  /** What a user can do in the dialog: type into an input or pick a status. */
  datatype Edit = Type(field: Field, value: string) | PickStatus(status: string)

  /** The select only offers its items. */
  predicate Offered(edits: seq<Edit>) {
    forall k :: 0 <= k < |edits| && edits[k].PickStatus? ==> edits[k].status in StatusOptions
  }

  /** An input change goes through `handleChange`; a status pick through
      `handleSelectChange`, which sets exactly the status. */
  function ApplyEdit(form: Event, e: Edit): (r: Event)
    ensures e.PickStatus? ==> r == form.(status := e.status)
    ensures e.Type? ==> r == Change(form, e.field, e.value)
  {
    match e
    case Type(field, value) => Change(form, field, value)
    case PickStatus(status) => form.(status := status)
  }

  function ApplyEdits(form: Event, edits: seq<Edit>): Event
    decreases |edits|
  {
    if |edits| == 0 then form else ApplyEdits(ApplyEdit(form, edits[0]), edits[1..])
  }

  /** Applying a sequence of edits and then one more is applying them all. */
  lemma {:induction false} ApplyEditsThenOne(form: Event, edits: seq<Edit>, e: Edit)
    ensures ApplyEdits(form, edits + [e]) == ApplyEdit(ApplyEdits(form, edits), e)
    decreases |edits|
  {
    if |edits| == 0 {
      assert edits + [e] == [e];
    } else {
      assert (edits + [e])[1..] == edits[1..] + [e];
      ApplyEditsThenOne(ApplyEdit(form, edits[0]), edits[1..], e);
    }
  }

  /** Whatever was typed or picked before, the status saved is the one picked
      last, and a later pick changes nothing else. */
  lemma LastStatusPickWins(form: Event, edits: seq<Edit>, status: string)
    ensures ApplyEdits(form, edits + [PickStatus(status)]) == ApplyEdits(form, edits).(status := status)
  {
    ApplyEditsThenOne(form, edits, PickStatus(status));
  }

  /** No input edits the id: the saved record carries the id the dialog was
      opened with. */
  lemma {:induction false} EditsKeepId(form: Event, edits: seq<Edit>)
    ensures ApplyEdits(form, edits).id == form.id
    decreases |edits|
  {
    if |edits| > 0 {
      EditsKeepId(ApplyEdit(form, edits[0]), edits[1..]);
    }
  }

  /** Starting from a status the select offers, the status stays one of them. */
  lemma {:induction false} EditsKeepOfferedStatus(form: Event, edits: seq<Edit>)
    requires form.status in StatusOptions && Offered(edits)
    ensures ApplyEdits(form, edits).status in StatusOptions
    decreases |edits|
  {
    if |edits| > 0 {
      assert Offered(edits[1..]) by {
        forall k | 0 <= k < |edits[1..]| && edits[1..][k].PickStatus?
          ensures edits[1..][k].status in StatusOptions
        {
          assert edits[1..][k] == edits[k + 1];
        }
      }
      EditsKeepOfferedStatus(ApplyEdit(form, edits[0]), edits[1..]);
    }
  }

  /** Every item of the select has its own, non-gray badge in the table. */
  lemma OptionsHaveDistinctBadges()
    ensures StatusBadge(StatusOptions[0]) == Blue
    ensures StatusBadge(StatusOptions[1]) == Green
    ensures StatusBadge(StatusOptions[2]) == Red
  {
    assert Text.Lower("Upcoming") == "upcoming";
    assert Text.Lower("Completed") == "completed";
    assert Text.Lower("Cancelled") == "cancelled";
  }

  /** Creating: whatever is typed, the table gains exactly one event, at the
      end, with the clock value as id and the edited fields. */
  lemma CreateAppendsEditedRecord(es: seq<Event>, edits: seq<Edit>, now: int)
    ensures var r := Save(es, ApplyEdits(Init(None, true), edits), true, now);
            |r| == |es| + 1 && r[..|es|] == es && r[|es|] == ApplyEdits(Blank, edits).(id := now)
  {
  }

  /** Updating without editing leaves a table of unique ids and
      non-falsy events unchanged. */
  lemma UnchangedUpdateIsNoop(es: seq<Event>, e: Event, now: int)
    requires e in es && UniqueIds(es) && NoFalsyFields(e)
    ensures Save(es, Init(Some(PropsOf(e)), false), false, now) == es
  {
    InitCopiesEvent(e);
    var r := Save(es, e, false, now);
    var k :| 0 <= k < |es| && es[k] == e;
    forall i | 0 <= i < |es|
      ensures r[i] == es[i]
    {
      if es[i].id == e.id {
        assert i == k;
      }
    }
  }
}
