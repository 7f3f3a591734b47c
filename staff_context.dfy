/**
 * The staff data context: the records the dashboard endpoint returns are normalised, field by
 * field, into the staff list the pages use, with `||` supplying a default for each falsy field.
 */
module StaffContext {
  import opened Wrappers
  import opened JsValues
  import opened StaffRecords

  /** a numeric field as `Number(x)` sees it: missing, a number, or something that is not one */
  datatype RawNumber = Absent | Numeric(v: real) | NotANumber

  /** `Number(x) || 0` */
  function CountOf(x: RawNumber): (n: real)
    ensures x.Numeric? ==> n == x.v
    ensures !x.Numeric? ==> n == 0.0
  {
    match x
    case Numeric(v) => v
    case _ => 0.0
  }

  /** one record as the endpoint returns it; a text field is `None` when missing */
  datatype RawStaff = RawStaff(
    id: string,
    name: Option<string>,
    fullName: Option<string>,
    phone: Option<string>,
    email: Option<string>,
    role: Option<string>,
    totalCustomers: RawNumber,
    totalDeposits: RawNumber,
    todayDeposits: RawNumber,
    lastActivity: Option<string>,
    status: Option<string>,
    permissions: Option<seq<Entry>>,
    accounts: Option<seq<Json>>)

  /** a normalised record: the staff fields the pages read, and the dashboard figures */
  datatype DashboardStaff = DashboardStaff(
    staff: Staff,
    totalCustomers: real,
    totalDeposits: real,
    todayDeposits: real,
    lastActivity: Option<string>,
    accounts: seq<Json>)

  /** `x || fallback` for a text field: a missing or empty text takes the fallback */
  function OrElse(x: Option<string>, fallback: Option<string>): (r: Option<string>)
    ensures x.Some? && x.value != "" ==> r == x
    ensures x.None? || x.value == "" ==> r == fallback
  {
    if x.Some? && x.value != "" then x else fallback
  }

  /**
   * The mapping of one record. The date of the last activity is kept as received (its locale
   * formatting is not modelled); the record carries no department, so none is set.
   */
  function Normalise(raw: RawStaff): (d: DashboardStaff)
    ensures d.staff.id == raw.id && d.staff.phone == raw.phone && d.staff.email == raw.email && d.staff.role == raw.role
    ensures raw.name.Some? && raw.name.value != "" ==> d.staff.name == raw.name
    ensures raw.name.None? || raw.name.value == "" ==> d.staff.name == raw.fullName
    ensures raw.totalCustomers.Numeric? ==> d.totalCustomers == raw.totalCustomers.v
    ensures !raw.totalCustomers.Numeric? ==> d.totalCustomers == 0.0
    ensures raw.totalDeposits.Numeric? ==> d.totalDeposits == raw.totalDeposits.v
    ensures !raw.totalDeposits.Numeric? ==> d.totalDeposits == 0.0
    ensures raw.todayDeposits.Numeric? ==> d.todayDeposits == raw.todayDeposits.v
    ensures !raw.todayDeposits.Numeric? ==> d.todayDeposits == 0.0
    ensures raw.lastActivity.Some? && raw.lastActivity.value != "" ==> d.lastActivity == raw.lastActivity
    ensures raw.lastActivity.None? || raw.lastActivity.value == "" ==> d.lastActivity.None?
    ensures d.staff.status.Some? && d.staff.status.value != ""
    ensures raw.status.Some? && raw.status.value != "" ==> d.staff.status == raw.status
    ensures raw.status.None? || raw.status.value == "" ==> d.staff.status == Some("active")
    ensures raw.permissions.Some? ==> d.staff.permissions == raw.permissions.value
    ensures raw.permissions.None? ==> d.staff.permissions == []
    ensures raw.accounts.Some? ==> d.accounts == raw.accounts.value
    ensures raw.accounts.None? ==> d.accounts == []
    ensures d.staff.department.None?
  {
    var staff := Staff(
      raw.id,
      OrElse(raw.name, raw.fullName),
      raw.email,
      raw.role,
      raw.phone,
      None,
      OrElse(raw.status, Some("active")),
      if raw.permissions.Some? then raw.permissions.value else []);
    DashboardStaff(
      staff,
      CountOf(raw.totalCustomers),
      CountOf(raw.totalDeposits),
      CountOf(raw.todayDeposits),
      if raw.lastActivity.Some? && raw.lastActivity.value != "" then raw.lastActivity else None,
      if raw.accounts.Some? then raw.accounts.value else [])
  }

  /** `data.map(...)`: one normalised record per fetched record, in the same order */
  function NormaliseAll(data: seq<RawStaff>): (r: seq<DashboardStaff>)
    ensures |r| == |data|
    ensures forall i :: 0 <= i < |data| ==> r[i] == Normalise(data[i])
  {
    seq(|data|, i requires 0 <= i < |data| => Normalise(data[i]))
  }

  /** the staff list the pages read: the staff part of each normalised record, in fetch order */
  function StaffList(data: seq<RawStaff>): (r: seq<Staff>)
    ensures |r| == |data|
    ensures forall i :: 0 <= i < |data| ==> r[i] == Normalise(data[i]).staff
  {
    var all := NormaliseAll(data);
    seq(|all|, i requires 0 <= i < |all| => all[i].staff)
  }

  /**
   * Normalising a normalised record again changes nothing: every default is already in place
   * (unless the only name was an empty full name, which the second pass drops).
   */
  lemma NormaliseIsStable(raw: RawStaff)
    ensures var d := Normalise(raw);
            var again := RawStaff(d.staff.id, d.staff.name, None, d.staff.phone, d.staff.email, d.staff.role,
                                  Numeric(d.totalCustomers), Numeric(d.totalDeposits), Numeric(d.todayDeposits),
                                  d.lastActivity, d.staff.status, Some(d.staff.permissions), Some(d.accounts));
            d.staff.name != Some("") ==> Normalise(again) == d
  {
  }
}
