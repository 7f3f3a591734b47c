/**
 * The "other staff" tab: the edit, permission and delete updates its handlers apply to a staff
 * list, the permission badges, and the dialogs' forms. Its list is `StaffPage.OtherStaff`, the
 * same role filter the staff page uses.
 */
module OtherStaffTab {
  import opened Wrappers
  import Text
  import Sequences
  import opened JsValues
  import opened StaffRecords

  // ---------------------------------------------------------------------------------------------
  // The edit form and the list updates

  /** the six fields of the edit dialog; a field copied from a member without it is `None` */
  datatype EditForm = EditForm(
    name: Option<string>,
    role: Option<string>,
    department: Option<string>,
    phone: Option<string>,
    email: Option<string>,
    status: Option<string>)

  const BlankForm := EditForm(Some(""), Some(""), Some(""), Some(""), Some(""), Some("Active"))

  /** the form `handleEditClick` fills in from a member */
  function FormOf(s: Staff): EditForm {
    EditForm(s.name, s.role, s.department, s.phone, s.email, s.status)
  }

  /** `{ ...staff, ...editForm }` */
  function ApplyEdit(s: Staff, f: EditForm): (r: Staff)
    ensures FormOf(r) == f
    ensures r.id == s.id && r.permissions == s.permissions
  {
    s.(name := f.name, role := f.role, department := f.department, phone := f.phone, email := f.email,
       status := f.status)
  }

  /** the edit update: the members with the selected id take the form's fields */
  function UpdateById(list: seq<Staff>, id: string, f: EditForm): (r: seq<Staff>)
    ensures |r| == |list|
    ensures forall i :: 0 <= i < |list| && list[i].id != id ==> r[i] == list[i]
    ensures forall i :: 0 <= i < |list| && list[i].id == id ==>
              r[i].id == id && r[i].permissions == list[i].permissions && FormOf(r[i]) == f
  {
    seq(|list|, i requires 0 <= i < |list| => if list[i].id == id then ApplyEdit(list[i], f) else list[i])
  }

  /** Saving the form exactly as `handleEditClick` filled it in changes nothing. */
  lemma UnchangedFormIsNoEdit(list: seq<Staff>, s: Staff)
    requires forall t :: t in list && t.id == s.id ==> t == s
    ensures UpdateById(list, s.id, FormOf(s)) == list
  {
    var r := UpdateById(list, s.id, FormOf(s));
    forall i | 0 <= i < |list|
      ensures r[i] == list[i]
    {
      if list[i].id == s.id {
        assert list[i] in list;
      }
    }
  }

  /** the permissions update: only the permissions of the members with the selected id change */
  function SetPermissionsById(list: seq<Staff>, id: string, perms: seq<Entry>): (r: seq<Staff>)
    ensures |r| == |list|
    ensures forall i :: 0 <= i < |list| && list[i].id != id ==> r[i] == list[i]
    ensures forall i :: 0 <= i < |list| && list[i].id == id ==>
              r[i].permissions == perms && r[i].id == id && FormOf(r[i]) == FormOf(list[i])
  {
    seq(|list|, i requires 0 <= i < |list| => if list[i].id == id then list[i].(permissions := perms) else list[i])
  }

  function Keeps(id: string): Staff -> bool {
    (s: Staff) => s.id != id
  }

  /** the delete update: the members with the selected id leave, the rest keep their order */
  function DeleteById(list: seq<Staff>, id: string): (r: seq<Staff>)
    ensures forall s :: s in r <==> s in list && s.id != id
    ensures |r| <= |list|
  {
    Sequences.FilterContents(list, Keeps(id));
    Sequences.Filter(list, Keeps(id))
  }

  lemma DeleteByIdKeepsOrder(a: seq<Staff>, b: seq<Staff>, id: string)
    ensures DeleteById(a + b, id) == DeleteById(a, id) + DeleteById(b, id)
  {
    Sequences.FilterAppend(a, b, Keeps(id));
  }

  /** Deleting an id nobody has changes nothing. */
  lemma DeleteAbsentId(list: seq<Staff>, id: string)
    requires forall s :: s in list ==> s.id != id
    ensures DeleteById(list, id) == list
  {
    Sequences.FilterAll(list, Keeps(id));
  }

  // ---------------------------------------------------------------------------------------------
  // Permission badges

  function Granted(): Entry -> bool {
    (e: Entry) => e.value == JBool(true)
  }

  /** `Object.entries(permissions).filter(value === true).map(key.replace(/_/g, ' '))` */
  function PermissionBadges(perms: seq<Entry>): (r: seq<string>)
    ensures |r| <= |perms|
    ensures forall i :: 0 <= i < |r| ==> '_' !in r[i]
  {
    var granted := Sequences.Filter(perms, Granted());
    seq(|granted|, i requires 0 <= i < |granted| => Text.UnderscoresToSpaces(granted[i].key))
  }

  /**
   * A badge is shown for every permission whose value is exactly `true` and for nothing else, in
   * the object's key order.
   */
  lemma {:induction false} PermissionBadgesAreGranted(perms: seq<Entry>)
    ensures forall e :: e in perms && e.value == JBool(true) ==> Text.UnderscoresToSpaces(e.key) in PermissionBadges(perms)
    ensures forall b :: b in PermissionBadges(perms) ==>
              exists e :: e in perms && e.value == JBool(true) && b == Text.UnderscoresToSpaces(e.key)
  {
    var granted := Sequences.Filter(perms, Granted());
    var r := PermissionBadges(perms);
    Sequences.FilterContents(perms, Granted());
    forall e | e in perms && e.value == JBool(true)
      ensures Text.UnderscoresToSpaces(e.key) in r
    {
      assert e in granted;
      var i :| 0 <= i < |granted| && granted[i] == e;
      assert r[i] == Text.UnderscoresToSpaces(e.key);
    }
    forall b | b in r
      ensures exists e :: e in perms && e.value == JBool(true) && b == Text.UnderscoresToSpaces(e.key)
    {
      var i :| 0 <= i < |r| && r[i] == b;
      assert granted[i] in granted;
    }
  }

  lemma PermissionBadgesKeepOrder(a: seq<Entry>, b: seq<Entry>)
    ensures PermissionBadges(a + b) == PermissionBadges(a) + PermissionBadges(b)
  {
    Sequences.FilterAppend(a, b, Granted());
  }

  // ---------------------------------------------------------------------------------------------
  // The dialogs

  /** the permissions form before any member is chosen: the eight keys, all unchecked */
  const InitialPermissions := [
    Entry("view_patients", JBool(false)),
    Entry("edit_appointments", JBool(false)),
    Entry("view_reports", JBool(false)),
    Entry("manage_billing", JBool(false)),
    Entry("manage_staff", JBool(false)),
    Entry("access_medical_records", JBool(false)),
    Entry("modify_schedules", JBool(false)),
    Entry("generate_reports", JBool(false))]

  /** `permissionsForm[key] || false`: whether a checkbox shows as checked */
  function IsChecked(perms: seq<Entry>, key: string): bool {
    var v := Lookup(perms, key);
    v.Some? && Truthy(v.value)
  }

  /** Toggling a checkbox sets that box as asked and leaves every other box as it was. */
  lemma ToggleSetsOnlyThatBox(perms: seq<Entry>, key: string, checked: bool)
    ensures IsChecked(Assign(perms, key, JBool(checked)), key) == checked
    ensures forall k :: k != key ==> IsChecked(Assign(perms, key, JBool(checked)), k) == IsChecked(perms, k)
  {
    AssignLookup(perms, key, JBool(checked));
  }

  class OtherStaffPanel {
    var selected: Option<Staff>
    var editForm: EditForm
    var permissionsForm: seq<Entry>
    var showEditModal: bool
    var showPermissionsModal: bool
    var showDeleteModal: bool

    constructor()
      ensures selected == None && editForm == BlankForm && permissionsForm == InitialPermissions
      ensures !showEditModal && !showPermissionsModal && !showDeleteModal
    {
      selected := None;
      editForm := BlankForm;
      permissionsForm := InitialPermissions;
      showEditModal, showPermissionsModal, showDeleteModal := false, false, false;
    }

    /** `handleEditClick`: select the member and copy its six fields into the edit form */
    method EditClick(staff: Staff)
      modifies this
      ensures selected == Some(staff) && showEditModal
      ensures editForm == FormOf(staff)
      ensures permissionsForm == old(permissionsForm)
      ensures showPermissionsModal == old(showPermissionsModal) && showDeleteModal == old(showDeleteModal)
    {
      selected := Some(staff);
      editForm := EditForm(staff.name, staff.role, staff.department, staff.phone, staff.email, staff.status);
      showEditModal := true;
    }

    /** `handlePermissionsClick`: select the member and load its permissions into the form */
    method PermissionsClick(staff: Staff)
      modifies this
      ensures selected == Some(staff) && showPermissionsModal
      ensures permissionsForm == staff.permissions
      ensures editForm == old(editForm)
      ensures showEditModal == old(showEditModal) && showDeleteModal == old(showDeleteModal)
    {
      selected := Some(staff);
      permissionsForm := staff.permissions;
      showPermissionsModal := true;
    }

    /** `handleDeleteClick` */
    method DeleteClick(staff: Staff)
      modifies this
      ensures selected == Some(staff) && showDeleteModal
      ensures editForm == old(editForm) && permissionsForm == old(permissionsForm)
      ensures showEditModal == old(showEditModal) && showPermissionsModal == old(showPermissionsModal)
    {
      selected := Some(staff);
      showDeleteModal := true;
    }

    /** a checkbox's `onChange`: `{ ...permissionsForm, [key]: checked }` */
    method ToggleCheckbox(key: string, checked: bool)
      modifies this
      ensures permissionsForm == Assign(old(permissionsForm), key, JBool(checked))
      ensures IsChecked(permissionsForm, key) == checked
      ensures forall k :: k != key ==> Lookup(permissionsForm, k) == Lookup(old(permissionsForm), k)
      ensures selected == old(selected) && editForm == old(editForm)
      ensures showEditModal == old(showEditModal) && showPermissionsModal == old(showPermissionsModal)
      ensures showDeleteModal == old(showDeleteModal)
    {
      AssignLookup(permissionsForm, key, JBool(checked));
      permissionsForm := Assign(permissionsForm, key, JBool(checked));
    }
  }
}
