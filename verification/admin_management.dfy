/** The administrators' admin table (AdminManagement): search, the create
    template, save (create when the id is empty, update otherwise), removal
    and the guard that protects super admins from removal. */
module AdminManagement {
  import opened Text
  import opened Seqs

  datatype Admin = Admin(
    id: string, name: string, email: string, role: string,
    location: string, permissions: seq<string>)

  const SuperAdmin := "super-admin"

  function Ids(admins: seq<Admin>): set<string> {
    set a | a in admins :: a.id
  }

  /** The search box keeps an admin when the name, email or location contains
      the query, ignoring case. */
  predicate SearchHit(a: Admin, query: string) {
    Matches(a.name, query) || Matches(a.email, query) || Matches(a.location, query)
  }

  function Hit(query: string): Admin -> bool {
    (a: Admin) => SearchHit(a, query)
  }

  function Search(admins: seq<Admin>, query: string): (r: seq<Admin>)
    ensures forall a :: a in r <==> a in admins && SearchHit(a, query)
    ensures IsSubsequence(r, admins)
    ensures query == "" ==> r == admins
    ensures forall a :: Occurrences(r, a) == if SearchHit(a, query) then Occurrences(admins, a) else 0
  {
    EmptyQueryMatchesAll();
    FilterCountsAll(admins, Hit(query));
    Filter(admins, Hit(query))
  }

  /** Queries that differ only in letter case find the same admins. */
  lemma SearchIgnoresCase(admins: seq<Admin>, q1: string, q2: string)
    requires Lower(q1) == Lower(q2)
    ensures Search(admins, q1) == Search(admins, q2)
  {
    FilterCongruent(admins, Hit(q1), Hit(q2));
  }

  /** `handleCreateAdmin` opens the dialog on this record. */
  const CreateTemplate := Admin("", "", "", "admin", "", [])

  /** The dialog is in create mode exactly when the selected record has no id. */
  predicate IsCreateMode(selected: Admin) {
    selected.id == ""
  }

  /** The id a created admin gets: `admin${Date.now()}`. */
  function NewId(now: nat): (id: string)
    ensures |id| > 5 && id[..5] == "admin"
    ensures id[5..] == Decimal(now)
  {
    "admin" + Decimal(now)
  }

  /** Admins created at different clock readings get different ids. */
  lemma NewIdsDiffer(now1: nat, now2: nat)
    requires now1 != now2
    ensures NewId(now1) != NewId(now2)
  {
    DecimalRoundTrip(now1);
    DecimalRoundTrip(now2);
    assert NewId(now1)[5..] == Decimal(now1);
  }

  /** `handleSaveAdmin`. A record without id is appended with the id "admin"
      followed by the clock value, which is not checked against the ids in
      the table; otherwise every admin with the record's id is replaced by the record. */
  function Save(admins: seq<Admin>, data: Admin, now: nat): (r: seq<Admin>)
    ensures IsCreateMode(data) ==>
              |r| == |admins| + 1 && r[..|admins|] == admins && r[|admins|] == data.(id := NewId(now))
    ensures !IsCreateMode(data) ==> |r| == |admins|
    ensures !IsCreateMode(data) ==> forall i :: 0 <= i < |admins| ==>
              r[i] == if admins[i].id == data.id then data else admins[i]
    ensures !IsCreateMode(data) && data.id !in Ids(admins) ==> r == admins
  {
    if data.id == "" then admins + [data.(id := NewId(now))]
    else seq(|admins|, i requires 0 <= i < |admins| => if admins[i].id == data.id then data else admins[i])
  }

  /** The created id is new to the table only when no admin already has it:
      nothing in the save checks this. */
  lemma CreatedIdIsNewWhenUnused(admins: seq<Admin>, data: Admin, now: nat)
    requires IsCreateMode(data) && NewId(now) !in Ids(admins)
    ensures var r := Save(admins, data, now);
            forall i :: 0 <= i < |r| ==> (r[i].id == NewId(now) <==> i == |admins|)
  {
  }

  /** The id is not checked: a clock reading of 1 next to the sample id
      "admin1" gives two admins with the same id. */
  lemma CreatedIdCanRepeat(data: Admin)
    requires IsCreateMode(data)
    ensures var r := Save([Admin("admin1", "", "", "admin", "", [])], data, 1);
            |r| == 2 && r[0].id == r[1].id
  {
  }

  /** The admin a create adds is not in create mode: saving it again from the
      dialog updates it instead of adding another one. */
  lemma CreatedAdminIsEditable(admins: seq<Admin>, data: Admin, now: nat)
    requires IsCreateMode(data)
    ensures var r := Save(admins, data, now);
            !IsCreateMode(r[|admins|]) && |Save(r, r[|admins|], now)| == |r|
  {
  }

  function IdIsNot(id: string): Admin -> bool {
    (a: Admin) => a.id != id
  }

  /** `handleRemoveAdmin`: drops every admin with the id, keeps the others in order. */
  function Remove(admins: seq<Admin>, id: string): (r: seq<Admin>)
    ensures forall a :: a in r <==> a in admins && a.id != id
    ensures IsSubsequence(r, admins)
    ensures id !in Ids(r)
    ensures id !in Ids(admins) <==> r == admins
    ensures forall a :: Occurrences(r, a) == if a.id != id then Occurrences(admins, a) else 0
  {
    FilterCountsAll(admins, IdIsNot(id));
    Filter(admins, IdIsNot(id))
  }

  /** Removing an admin after saving an edit of it is removing it; removing
      the id a create just handed out undoes the create, together with any
      older admin that had the same id. */
  lemma RemoveAfterSave(admins: seq<Admin>, data: Admin, now: nat)
    ensures !IsCreateMode(data) ==> Remove(Save(admins, data, now), data.id) == Remove(admins, data.id)
    ensures IsCreateMode(data) ==> Remove(Save(admins, data, now), NewId(now)) == Remove(admins, NewId(now))
  {
    if IsCreateMode(data) {
      FilterAppend(admins, [data.(id := NewId(now))], IdIsNot(NewId(now)));
    } else {
      FilterIgnoresRejected(Save(admins, data, now), admins, IdIsNot(data.id));
    }
  }

  /** The remove button of a row is disabled for super admins. */
  predicate CanRemove(row: Admin) {
    row.role != SuperAdmin
  }

  /** A click on a row's remove button. */
  function ClickRemove(admins: seq<Admin>, row: Admin): (r: seq<Admin>)
    ensures row.role == SuperAdmin ==> r == admins
    ensures row.role != SuperAdmin ==> row.id !in Ids(r) && IsSubsequence(r, admins)
    ensures row.role != SuperAdmin ==> forall a :: a in r <==> a in admins && a.id != row.id
    ensures row.role != SuperAdmin ==>
              forall a :: Occurrences(r, a) == if a.id != row.id then Occurrences(admins, a) else 0
  {
    if CanRemove(row) then Remove(admins, row.id) else admins
  }
}
