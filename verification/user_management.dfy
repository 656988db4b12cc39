/** The administrators' user table (UserManagement): search, status change,
    removal and the wholesale update from the details dialog. */
module UserManagement {
  import opened Wrappers
  import opened Text
  import opened Seqs
  import opened Badges

  /** A user row. `registeredDate` is present on the loaded rows; the dialog's
      record has no such field. */
  datatype User = User(
    id: string, name: string, email: string, location: string,
    role: string, status: string, registeredDate: Option<string>)

  function Ids(us: seq<User>): set<string> {
    set u | u in us :: u.id
  }

  predicate UniqueIds(us: seq<User>) {
    forall i, j :: 0 <= i < j < |us| ==> us[i].id != us[j].id
  }

  /** The search box keeps a user when the name, email or location contains
      the query, ignoring case. */
  predicate SearchHit(u: User, query: string) {
    Matches(u.name, query) || Matches(u.email, query) || Matches(u.location, query)
  }

  function Hit(query: string): User -> bool {
    (u: User) => SearchHit(u, query)
  }

  function Search(us: seq<User>, query: string): (r: seq<User>)
    ensures forall u :: u in r <==> u in us && SearchHit(u, query)
    ensures IsSubsequence(r, us)
    ensures query == "" ==> r == us
    ensures forall u :: Occurrences(r, u) == if SearchHit(u, query) then Occurrences(us, u) else 0
  {
    EmptyQueryMatchesAll();
    FilterCountsAll(us, Hit(query));
    Filter(us, Hit(query))
  }

  /** Queries that differ only in letter case find the same users. */
  lemma SearchIgnoresCase(us: seq<User>, q1: string, q2: string)
    requires Lower(q1) == Lower(q2)
    ensures Search(us, q1) == Search(us, q2)
  {
    FilterCongruent(us, Hit(q1), Hit(q2));
  }

  /** `handleStatusChange`: users with the id get the new status; every other
      field and every other user is unchanged. */
  function SetStatus(us: seq<User>, id: string, status: string): (r: seq<User>)
    ensures |r| == |us|
    ensures forall i :: 0 <= i < |us| && us[i].id != id ==> r[i] == us[i]
    ensures forall i :: 0 <= i < |us| && us[i].id == id ==> r[i] == us[i].(status := status)
    ensures id !in Ids(us) ==> r == us
  {
    seq(|us|, i requires 0 <= i < |us| => if us[i].id == id then us[i].(status := status) else us[i])
  }

  function IdIsNot(id: string): User -> bool {
    (u: User) => u.id != id
  }

  /** `handleRemoveUser`: drops every user with the id, keeps the others in order. */
  function Remove(us: seq<User>, id: string): (r: seq<User>)
    ensures forall u :: u in r <==> u in us && u.id != id
    ensures IsSubsequence(r, us)
    ensures id !in Ids(r)
    ensures id !in Ids(us) <==> r == us
    ensures forall u :: Occurrences(r, u) == if u.id != id then Occurrences(us, u) else 0
  {
    FilterCountsAll(us, IdIsNot(id));
    Filter(us, IdIsNot(id))
  }

  /** `handleUpdateUser`: every user with the updated record's id is replaced
      by that record as a whole; nothing of the old row survives. */
  function Update(us: seq<User>, updated: User): (r: seq<User>)
    ensures |r| == |us|
    ensures forall i :: 0 <= i < |us| && us[i].id == updated.id ==> r[i] == updated
    ensures forall i :: 0 <= i < |us| && us[i].id != updated.id ==> r[i] == us[i]
    ensures updated.id !in Ids(us) ==> r == us
  {
    seq(|us|, i requires 0 <= i < |us| => if us[i].id == updated.id then updated else us[i])
  }

  /** Removing a user after changing their status or updating them is
      removing them. */
  lemma RemoveAfterChange(us: seq<User>, updated: User, status: string)
    ensures Remove(SetStatus(us, updated.id, status), updated.id) == Remove(us, updated.id)
    ensures Remove(Update(us, updated), updated.id) == Remove(us, updated.id)
  {
    FilterIgnoresRejected(SetStatus(us, updated.id, status), us, IdIsNot(updated.id));
    FilterIgnoresRejected(Update(us, updated), us, IdIsNot(updated.id));
  }

  /** The status badge of a row: exactly "active" is green, anything else gray. */
  function StatusBadge(status: string): (t: Tone)
    ensures t == Green <==> status == "active"
    ensures t == Gray <==> status != "active"
  {
    if status == "active" then Green else Gray
  }
}
