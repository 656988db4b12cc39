/** The administrators' event table (EventManagement): search, create or
    update from the details dialog, removal and the status badge. */
module EventManagement {
  import opened Text
  import opened Seqs
  import opened Badges

  /** The attendee count. It starts as a number; once edited in the dialog's
      number input it holds the input's text. */
  datatype Attendance = Count(n: int) | Entered(text: string)

  datatype Event = Event(
    id: int, title: string, date: string, location: string,
    status: string, attendees: Attendance, description: string)

  function Ids(es: seq<Event>): set<int> {
    set e | e in es :: e.id
  }

  predicate UniqueIds(es: seq<Event>) {
    forall i, j :: 0 <= i < j < |es| ==> es[i].id != es[j].id
  }

  /** The search box keeps an event when its title, location or status
      contains the query, ignoring case. */
  predicate SearchHit(e: Event, query: string) {
    Matches(e.title, query) || Matches(e.location, query) || Matches(e.status, query)
  }

  function Hit(query: string): Event -> bool {
    (e: Event) => SearchHit(e, query)
  }

  function Search(es: seq<Event>, query: string): (r: seq<Event>)
    ensures forall e :: e in r <==> e in es && SearchHit(e, query)
    ensures IsSubsequence(r, es)
    ensures query == "" ==> r == es
    ensures forall e :: Occurrences(r, e) == if SearchHit(e, query) then Occurrences(es, e) else 0
  {
    EmptyQueryMatchesAll();
    FilterCountsAll(es, Hit(query));
    Filter(es, Hit(query))
  }

  /** Queries that differ only in letter case find the same events. */
  lemma SearchIgnoresCase(es: seq<Event>, q1: string, q2: string)
    requires Lower(q1) == Lower(q2)
    ensures Search(es, q1) == Search(es, q2)
  {
    FilterCongruent(es, Hit(q1), Hit(q2));
  }

  /** `handleSaveEvent`. In create mode the dialog's record is appended with
      the clock value as its id, without checking that id against the table;
      otherwise every event with the record's id is replaced by the record
      and nothing else changes. */
  function Save(es: seq<Event>, data: Event, isCreateMode: bool, now: int): (r: seq<Event>)
    ensures isCreateMode ==> |r| == |es| + 1 && r[..|es|] == es && r[|es|] == data.(id := now)
    ensures !isCreateMode ==> |r| == |es|
    ensures !isCreateMode ==> forall i :: 0 <= i < |es| ==>
              r[i] == if es[i].id == data.id then data else es[i]
    ensures !isCreateMode ==> (data.id !in Ids(es) ==> r == es)
    ensures !isCreateMode ==> Ids(r) == Ids(es)
  {
    if isCreateMode then es + [data.(id := now)]
    else
      var r := seq(|es|, i requires 0 <= i < |es| => if es[i].id == data.id then data else es[i]);
      assert Ids(r) == Ids(es) by {
        forall k | k in Ids(es)
          ensures k in Ids(r)
        {
          var i :| 0 <= i < |es| && es[i].id == k;
          assert r[i] in r;
        }
      }
      r
  }

  function IdIsNot(id: int): Event -> bool {
    (e: Event) => e.id != id
  }

  /** `handleRemoveEvent`: drops every event with the id and keeps the others
      in their order. */
  function Remove(es: seq<Event>, id: int): (r: seq<Event>)
    ensures forall e :: e in r <==> e in es && e.id != id
    ensures IsSubsequence(r, es)
    ensures id !in Ids(r)
    ensures id !in Ids(es) <==> r == es
    ensures forall e :: Occurrences(r, e) == if e.id != id then Occurrences(es, e) else 0
  {
    FilterCountsAll(es, IdIsNot(id));
    Filter(es, IdIsNot(id))
  }

  /** Removing an event after updating it is removing it. */
  lemma RemoveAfterUpdate(es: seq<Event>, data: Event, now: int)
    ensures Remove(Save(es, data, false, now), data.id) == Remove(es, data.id)
  {
    FilterIgnoresRejected(Save(es, data, false, now), es, IdIsNot(data.id));
  }

  /** Removing the id a create just used removes the new event again, together
      with any older event that had the same id. */
  lemma RemoveAfterCreate(es: seq<Event>, data: Event, now: int)
    ensures Remove(Save(es, data, true, now), now) == Remove(es, now)
  {
    FilterAppend(es, [data.(id := now)], IdIsNot(now));
  }

  /** `getStatusBadgeClass`: compared after lowering; upcoming is blue,
      completed green, cancelled red, anything else gray. */
  function StatusBadge(status: string): (t: Tone)
    ensures t == Blue <==> Lower(status) == "upcoming"
    ensures t == Green <==> Lower(status) == "completed"
    ensures t == Red <==> Lower(status) == "cancelled"
    ensures t == Gray <==> Lower(status) !in {"upcoming", "completed", "cancelled"}
  {
    var s := Lower(status);
    if s == "upcoming" then Blue
    else if s == "completed" then Green
    else if s == "cancelled" then Red
    else Gray
  }
}
