/** The admin dialog (AdminPermissionsDialog): a record initialised from
    the admin it is opened with, text inputs (create mode only), a role select
    and one checkbox per permission, with the super-admin locks. */
module AdminPermissionsDialog {
  import opened Wrappers
  import opened Js
  import opened Seqs
  import opened Checklist
  import opened AdminManagement

  /** The `admin` property as the dialog reads it: any property may be absent. */
  datatype AdminProps = AdminProps(
    id: Option<string>, name: Option<string>, email: Option<string>,
    role: Option<string>, location: Option<string>, permissions: Option<seq<string>>)

  /** A row of the table, or the create template, passed as the property. */
  function PropsOf(a: Admin): AdminProps {
    AdminProps(Some(a.id), Some(a.name), Some(a.email), Some(a.role), Some(a.location), Some(a.permissions))
  }

  /** The ids of the permission checkboxes. */
  const PermissionIds: seq<string> := ["complaints", "events", "users", "admins", "feedback"]

  /** The items of the role select. */
  const RoleOptions: seq<string> := ["admin", SuperAdmin]

  /** The state before the initialising effect has run. */
  const Initial := Admin("", "", "", "admin", "", [])

  /** The initialising effect: without an admin the state stays as it is;
      otherwise falsy texts become "", a falsy role "admin", and an absent
      permission list []. */
  function Init(current: Admin, admin: Option<AdminProps>): (r: Admin)
    ensures admin.None? ==> r == current
    ensures admin.Some? ==> r.role != ""
    ensures admin.Some? ==>
              var p := admin.value;
              Defaulted(r.id, p.id, "") && Defaulted(r.name, p.name, "") &&
              Defaulted(r.email, p.email, "") && Defaulted(r.role, p.role, "admin") &&
              Defaulted(r.location, p.location, "") &&
              (p.permissions.Some? ==> r.permissions == p.permissions.value) &&
              (p.permissions.None? ==> r.permissions == [])
  {
    match admin
    case None => current
    case Some(p) =>
      Admin(Or(p.id, ""), Or(p.name, ""), Or(p.email, ""), Or(p.role, "admin"),
            Or(p.location, ""), OrEmptyList(p.permissions))
  }

  /** Opening an admin that has a role shows exactly that admin. */
  lemma InitShowsAdmin(a: Admin)
    requires a.role != ""
    ensures Init(Initial, Some(PropsOf(a))) == a
  {
  }

  /** Opening an admin whose properties are all absent gives the create template. */
  lemma InitDefaults(current: Admin)
    ensures Init(current, Some(AdminProps(None, None, None, None, None, None))) == CreateTemplate
  {
  }

  /** The text inputs, rendered in create mode only. */
  datatype Field = Name | Email | Location

  /** What a user can do in the dialog. */
  datatype Edit = Type(field: Field, value: string) | PickRole(role: string) | ClickPermission(permission: string)

  /** The value a text input shows. */
  function FieldOf(a: Admin, f: Field): string {
    match f
    case Name => a.name
    case Email => a.email
    case Location => a.location
  }

  /** The role select is disabled when editing an existing super admin. */
  predicate RoleSelectEnabled(form: Admin, isCreateMode: bool) {
    isCreateMode || form.role != SuperAdmin
  }

  /** The permission checkboxes are disabled for a super admin. */
  predicate PermissionsEnabled(form: Admin) {
    form.role != SuperAdmin
  }

  /** Whether the control an edit uses is rendered and enabled. */
  predicate Enabled(form: Admin, e: Edit, isCreateMode: bool) {
    match e
    case Type(_, _) => isCreateMode
    case PickRole(_) => RoleSelectEnabled(form, isCreateMode)
    case ClickPermission(_) => PermissionsEnabled(form)
  }

  /** `handleChange`, the role select and `handlePermissionChange`; an edit
      on a control that is missing or disabled has no effect. */
  function ApplyEdit(form: Admin, e: Edit, isCreateMode: bool): (r: Admin)
    ensures r.id == form.id
    ensures !Enabled(form, e, isCreateMode) ==> r == form
    ensures e.Type? && isCreateMode ==>
              FieldOf(r, e.field) == e.value &&
              (forall f :: f != e.field ==> FieldOf(r, f) == FieldOf(form, f)) &&
              r.role == form.role && r.permissions == form.permissions
    ensures e.PickRole? && Enabled(form, e, isCreateMode) ==> r == form.(role := e.role)
    ensures e.ClickPermission? && Enabled(form, e, isCreateMode) ==>
              r == form.(permissions := Click(form.permissions, e.permission))
  {
    if !Enabled(form, e, isCreateMode) then form
    else match e
      case Type(Name, v) => form.(name := v)
      case Type(Email, v) => form.(email := v)
      case Type(Location, v) => form.(location := v)
      case PickRole(v) => form.(role := v)
      case ClickPermission(p) => form.(permissions := Toggle(form.permissions, p, p !in form.permissions))
  }

  function ApplyEdits(form: Admin, edits: seq<Edit>, isCreateMode: bool): Admin
    decreases |edits|
  {
    if |edits| == 0 then form else ApplyEdits(ApplyEdit(form, edits[0], isCreateMode), edits[1..], isCreateMode)
  }

  /** No control edits the id. */
  lemma {:induction false} EditsKeepId(form: Admin, edits: seq<Edit>, isCreateMode: bool)
    ensures ApplyEdits(form, edits, isCreateMode).id == form.id
    decreases |edits|
  {
    if |edits| > 0 {
      EditsKeepId(ApplyEdit(form, edits[0], isCreateMode), edits[1..], isCreateMode);
    }
  }

  /** Editing an existing super admin can change nothing: the text inputs are
      not rendered, the role select and the checkboxes are disabled. */
  lemma {:induction false} SuperAdminIsLocked(form: Admin, edits: seq<Edit>)
    requires form.role == SuperAdmin
    ensures ApplyEdits(form, edits, false) == form
    decreases |edits|
  {
    if |edits| > 0 {
      SuperAdminIsLocked(form, edits[1..]);
    }
  }

  /** The checkboxes only offer the listed permission ids. */
  predicate Offered(edits: seq<Edit>) {
    forall k :: 0 <= k < |edits| && edits[k].ClickPermission? ==> edits[k].permission in PermissionIds
  }

  /** Starting from listed permissions, the permissions stay listed ones. */
  lemma {:induction false} PermissionsStayListed(form: Admin, edits: seq<Edit>, isCreateMode: bool)
    requires forall p :: p in form.permissions ==> p in PermissionIds
    requires Offered(edits)
    ensures forall p :: p in ApplyEdits(form, edits, isCreateMode).permissions ==> p in PermissionIds
    decreases |edits|
  {
    if |edits| > 0 {
      assert Offered(edits[1..]) by {
        forall k | 0 <= k < |edits[1..]| && edits[1..][k].ClickPermission?
          ensures edits[1..][k].permission in PermissionIds
        {
          assert edits[1..][k] == edits[k + 1];
        }
      }
      PermissionsStayListed(ApplyEdit(form, edits[0], isCreateMode), edits[1..], isCreateMode);
    }
  }

  /** The role select only offers its items. */
  predicate RolesOffered(edits: seq<Edit>) {
    forall k :: 0 <= k < |edits| && edits[k].PickRole? ==> edits[k].role in RoleOptions
  }

  /** Starting from a role the select offers, the role stays one of them. */
  lemma {:induction false} EditsKeepOfferedRole(form: Admin, edits: seq<Edit>, isCreateMode: bool)
    requires form.role in RoleOptions && RolesOffered(edits)
    ensures ApplyEdits(form, edits, isCreateMode).role in RoleOptions
    decreases |edits|
  {
    if |edits| > 0 {
      assert RolesOffered(edits[1..]) by {
        forall k | 0 <= k < |edits[1..]| && edits[1..][k].PickRole?
          ensures edits[1..][k].role in RoleOptions
        {
          assert edits[1..][k] == edits[k + 1];
        }
      }
      EditsKeepOfferedRole(ApplyEdit(form, edits[0], isCreateMode), edits[1..], isCreateMode);
    }
  }

  /** Granting and then revoking a permission the admin did not have restores
      the admin's permissions. */
  lemma GrantThenRevoke(form: Admin, p: string)
    requires PermissionsEnabled(form) && p !in form.permissions
    ensures var granted := ApplyEdit(form, ClickPermission(p), false);
            granted.permissions == form.permissions + [p] &&
            ApplyEdit(granted, ClickPermission(p), false) == form
  {
    ClickTwiceRestores(form.permissions, p);
  }

  /** Creating through the dialog: whatever is typed or clicked, saving the
      template's dialog adds exactly one admin, at the end, with the id
      `NewId(now)`. */
  lemma CreateAddsOneAdmin(admins: seq<Admin>, edits: seq<Edit>, now: nat)
    ensures var form := ApplyEdits(Init(Initial, Some(PropsOf(CreateTemplate))), edits, true);
            var r := Save(admins, form, now);
            |r| == |admins| + 1 && r[..|admins|] == admins && r[|admins|] == form.(id := NewId(now))
  {
    var start := Init(Initial, Some(PropsOf(CreateTemplate)));
    assert start == CreateTemplate;
    EditsKeepId(start, edits, true);
  }

  /** Editing an existing admin through the dialog never changes the number of admins. */
  lemma EditKeepsCount(admins: seq<Admin>, k: int, edits: seq<Edit>, now: nat)
    requires 0 <= k < |admins| && admins[k].id != ""
    ensures |Save(admins, ApplyEdits(Init(Initial, Some(PropsOf(admins[k]))), edits, false), now)| == |admins|
  {
    EditsKeepId(Init(Initial, Some(PropsOf(admins[k]))), edits, false);
  }
}
