/** The administrators' complaint table (ComplaintManagement): search,
    status change, removal and the status badge. */
module ComplaintManagement {
  import opened Wrappers
  import opened Text
  import opened Seqs
  import opened Badges

  datatype Complaint = Complaint(
    id: int, title: string, status: string, date: string,
    area: string, userId: string, description: string)

  function Ids(cs: seq<Complaint>): set<int> {
    set c | c in cs :: c.id
  }

  predicate UniqueIds(cs: seq<Complaint>) {
    forall i, j :: 0 <= i < j < |cs| ==> cs[i].id != cs[j].id
  }

  /** The search box keeps a complaint when its title, area or status
      contains the query, ignoring case. */
  predicate SearchHit(c: Complaint, query: string) {
    Matches(c.title, query) || Matches(c.area, query) || Matches(c.status, query)
  }

  function Hit(query: string): Complaint -> bool {
    (c: Complaint) => SearchHit(c, query)
  }

  function Search(cs: seq<Complaint>, query: string): (r: seq<Complaint>)
    ensures forall c :: c in r <==> c in cs && SearchHit(c, query)
    ensures IsSubsequence(r, cs)
    ensures query == "" ==> r == cs
    ensures forall c :: Occurrences(r, c) == if SearchHit(c, query) then Occurrences(cs, c) else 0
  {
    EmptyQueryMatchesAll();
    FilterCountsAll(cs, Hit(query));
    Filter(cs, Hit(query))
  }

  /** Queries that differ only in letter case find the same complaints. */
  lemma SearchIgnoresCase(cs: seq<Complaint>, q1: string, q2: string)
    requires Lower(q1) == Lower(q2)
    ensures Search(cs, q1) == Search(cs, q2)
  {
    FilterCongruent(cs, Hit(q1), Hit(q2));
  }

  /** Extending the query narrows the result to a subsequence of the
      result for the shorter query. */
  lemma SearchNarrows(cs: seq<Complaint>, shorter: string, longer: string)
    requires Contains(longer, shorter)
    ensures IsSubsequence(Search(cs, longer), Search(cs, shorter))
  {
    NarrowerQueryAll(shorter, longer);
    FilterOfFilter(cs, Hit(shorter), Hit(longer));
  }

  /** `handleStatusChange`: every complaint with the id gets the new status;
      nothing else changes. */
  function SetStatus(cs: seq<Complaint>, id: int, status: string): (r: seq<Complaint>)
    ensures |r| == |cs|
    ensures forall i :: 0 <= i < |cs| && cs[i].id != id ==> r[i] == cs[i]
    ensures forall i :: 0 <= i < |cs| && cs[i].id == id ==> r[i] == cs[i].(status := status)
    ensures id !in Ids(cs) ==> r == cs
  {
    seq(|cs|, i requires 0 <= i < |cs| => if cs[i].id == id then cs[i].(status := status) else cs[i])
  }

  /** A status change keeps the set of ids. */
  lemma SetStatusKeepsIds(cs: seq<Complaint>, id: int, status: string)
    ensures Ids(SetStatus(cs, id, status)) == Ids(cs)
  {
    var r := SetStatus(cs, id, status);
    forall k | k in Ids(cs)
      ensures k in Ids(r)
    {
      var i :| 0 <= i < |cs| && cs[i].id == k;
      assert r[i] in r;
    }
  }

  function IdIsNot(id: int): Complaint -> bool {
    (c: Complaint) => c.id != id
  }

  /** `handleRemoveComplaint`: drops every complaint with the id and keeps
      the others in their order. */
  function Remove(cs: seq<Complaint>, id: int): (r: seq<Complaint>)
    ensures forall c :: c in r <==> c in cs && c.id != id
    ensures IsSubsequence(r, cs)
    ensures id !in Ids(r)
    ensures id !in Ids(cs) <==> r == cs
    ensures forall c :: Occurrences(r, c) == if c.id != id then Occurrences(cs, c) else 0
  {
    FilterCountsAll(cs, IdIsNot(id));
    Filter(cs, IdIsNot(id))
  }

  /** Removing a complaint after changing its status is removing it. */
  lemma RemoveAfterSetStatus(cs: seq<Complaint>, id: int, status: string)
    ensures Remove(SetStatus(cs, id, status), id) == Remove(cs, id)
  {
    FilterIgnoresRejected(SetStatus(cs, id, status), cs, IdIsNot(id));
  }

  /** How the table applies what the details dialog reports when it closes:
      a chosen status goes to the selected complaint's id, nothing else changes;
      closing without a status changes nothing. */
  function ApplyDialogResult(cs: seq<Complaint>, selected: Complaint, emitted: Option<string>): (r: seq<Complaint>)
    ensures emitted.None? ==> r == cs
    ensures |r| == |cs|
    ensures emitted.Some? ==> forall i :: 0 <= i < |cs| ==>
              r[i] == if cs[i].id == selected.id then cs[i].(status := emitted.value) else cs[i]
  {
    match emitted
    case Some(status) => SetStatus(cs, selected.id, status)
    case None => cs
  }

  /** `getStatusBadgeClass`: compared after lowering; anything but resolved
      and in progress, including pending and unknown statuses, is yellow. */
  function StatusBadge(status: string): (t: Tone)
    ensures t == Green <==> Lower(status) == "resolved"
    ensures t == Blue <==> Lower(status) == "in progress"
    ensures t == Yellow <==> Lower(status) != "resolved" && Lower(status) != "in progress"
  {
    var s := Lower(status);
    if s == "resolved" then Green
    else if s == "in progress" then Blue
    else Yellow
  }

  /** The badge does not depend on letter case. */
  lemma StatusBadgeIgnoresCase(a: string, b: string)
    requires Lower(a) == Lower(b)
    ensures StatusBadge(a) == StatusBadge(b)
  {
  }
}
