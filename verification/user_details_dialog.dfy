/** The user dialog (UserDetailsDialog): a six-field record initialised from
    the user it is opened with, edited by three text inputs and two selects,
    and handed back to the table on save. */
module UserDetailsDialog {
  import opened Wrappers
  import opened Js
  import opened Badges
  import opened UserManagement

  /** The `user` property as the dialog reads it: any property may be absent. */
  datatype UserProps = UserProps(
    id: Option<string>, name: Option<string>, email: Option<string>,
    location: Option<string>, role: Option<string>, status: Option<string>)

  /** The dialog's state. It has no registration date. */
  datatype Profile = Profile(
    id: string, name: string, email: string, location: string, role: string, status: string)

  /** A row of the table, passed as the property. */
  function PropsOf(u: User): UserProps {
    UserProps(Some(u.id), Some(u.name), Some(u.email), Some(u.location), Some(u.role), Some(u.status))
  }

  /** The state before the initialising effect has run. */
  const Initial := Profile("", "", "", "", "", "")

  const RoleOptions: seq<string> := ["user", "admin"]
  const StatusOptions: seq<string> := ["active", "inactive"]

  /** The initialising effect: without a user the state stays as it is;
      otherwise falsy role becomes "user", falsy status "active", and any other
      falsy property "". */
  function Init(current: Profile, user: Option<UserProps>): (r: Profile)
    ensures user.None? ==> r == current
    ensures user.Some? ==> r.role != "" && r.status != ""
    ensures user.Some? ==>
              var p := user.value;
              Defaulted(r.id, p.id, "") && Defaulted(r.name, p.name, "") &&
              Defaulted(r.email, p.email, "") && Defaulted(r.location, p.location, "") &&
              Defaulted(r.role, p.role, "user") && Defaulted(r.status, p.status, "active")
  {
    match user
    case None => current
    case Some(p) =>
      Profile(Or(p.id, ""), Or(p.name, ""), Or(p.email, ""), Or(p.location, ""),
              Or(p.role, "user"), Or(p.status, "active"))
  }

  /** Opening a user with a role and a status shows exactly that user's fields. */
  lemma InitShowsUser(u: User)
    requires u.role != "" && u.status != ""
    ensures var p := Init(Initial, Some(PropsOf(u)));
            p.id == u.id && p.name == u.name && p.email == u.email &&
            p.location == u.location && p.role == u.role && p.status == u.status
  {
  }

  /** Opening a user whose properties are all absent gives the defaults. */
  lemma InitDefaults(current: Profile)
    ensures Init(current, Some(UserProps(None, None, None, None, None, None)))
            == Profile("", "", "", "", "user", "active")
  {
  }

  /** The named text inputs. */
  datatype Field = Name | Email | Location

  /** What a user can do in the dialog. */
  datatype Edit = Type(field: Field, value: string) | PickRole(role: string) | PickStatus(status: string)

  /** `handleChange` and `handleSelectChange`: only the named field changes. */
  function ApplyEdit(p: Profile, e: Edit): (r: Profile)
    ensures r.id == p.id
    ensures e.Type? && e.field == Name ==> r.name == e.value
    ensures e.Type? && e.field == Email ==> r.email == e.value
    ensures e.Type? && e.field == Location ==> r.location == e.value
    ensures e.PickRole? ==> r.role == e.role
    ensures e.PickStatus? ==> r.status == e.status
    ensures !(e.Type? && e.field == Name) ==> r.name == p.name
    ensures !(e.Type? && e.field == Email) ==> r.email == p.email
    ensures !(e.Type? && e.field == Location) ==> r.location == p.location
    ensures !e.PickRole? ==> r.role == p.role
    ensures !e.PickStatus? ==> r.status == p.status
  {
    match e
    case Type(Name, v) => p.(name := v)
    case Type(Email, v) => p.(email := v)
    case Type(Location, v) => p.(location := v)
    case PickRole(v) => p.(role := v)
    case PickStatus(v) => p.(status := v)
  }

  function ApplyEdits(p: Profile, edits: seq<Edit>): Profile
    decreases |edits|
  {
    if |edits| == 0 then p else ApplyEdits(ApplyEdit(p, edits[0]), edits[1..])
  }

  /** No input edits the id. */
  lemma {:induction false} EditsKeepId(p: Profile, edits: seq<Edit>)
    ensures ApplyEdits(p, edits).id == p.id
    decreases |edits|
  {
    if |edits| > 0 {
      EditsKeepId(ApplyEdit(p, edits[0]), edits[1..]);
    }
  }

  /** The selects only offer their items. */
  predicate Offered(edits: seq<Edit>) {
    forall k :: 0 <= k < |edits| ==>
      (edits[k].PickRole? ==> edits[k].role in RoleOptions) &&
      (edits[k].PickStatus? ==> edits[k].status in StatusOptions)
  }

  /** Starting from an offered role and status, both stay offered ones. */
  lemma {:induction false} EditsKeepOfferedChoices(p: Profile, edits: seq<Edit>)
    requires p.role in RoleOptions && p.status in StatusOptions && Offered(edits)
    ensures ApplyEdits(p, edits).role in RoleOptions
    ensures ApplyEdits(p, edits).status in StatusOptions
    decreases |edits|
  {
    if |edits| > 0 {
      assert Offered(edits[1..]) by {
        forall k | 0 <= k < |edits[1..]|
          ensures (edits[1..][k].PickRole? ==> edits[1..][k].role in RoleOptions) &&
                  (edits[1..][k].PickStatus? ==> edits[1..][k].status in StatusOptions)
        {
          assert edits[1..][k] == edits[k + 1];
        }
      }
      EditsKeepOfferedChoices(ApplyEdit(p, edits[0]), edits[1..]);
    }
  }

  /** The record `onSave` passes: the six fields, no registration date. */
  function Saved(p: Profile): (u: User)
    ensures u.registeredDate.None?
    ensures u.id == p.id && u.role == p.role && u.status == p.status
    ensures u.name == p.name && u.email == p.email && u.location == p.location
  {
    User(p.id, p.name, p.email, p.location, p.role, p.status, None)
  }

  /** Whatever is edited, the saved record carries the id of the user the
      dialog was opened with. */
  lemma SavedIdIsUsersId(u: User, edits: seq<Edit>)
    ensures Saved(ApplyEdits(Init(Initial, Some(PropsOf(u))), edits)).id == u.id
  {
    EditsKeepId(Init(Initial, Some(PropsOf(u))), edits);
  }

  /** Saving the dialog unedited still changes the table: the user's
      registration date is dropped, because the update replaces the row with
      the dialog's record. */
  lemma UneditedSaveDropsRegisteredDate(us: seq<User>, k: int)
    requires 0 <= k < |us| && us[k].role != "" && us[k].status != ""
    ensures var r := Update(us, Saved(Init(Initial, Some(PropsOf(us[k])))));
            r[k] == us[k].(registeredDate := None) &&
            (us[k].registeredDate.Some? ==> r != us)
  {
    InitShowsUser(us[k]);
  }

  /** The two statuses the select offers get different badges in the table,
      and so does the default a user without status is shown with. */
  lemma StatusOptionsHaveDistinctBadges()
    ensures StatusBadge(StatusOptions[0]) == Green && StatusBadge(StatusOptions[1]) == Gray
    ensures StatusBadge(Init(Initial, Some(UserProps(None, None, None, None, None, None))).status) == Green
  {
  }
}
