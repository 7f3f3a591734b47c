/**
 * The records the staff pages work on, as the dashboard receives them from its data contexts.
 * A field the backend may leave out is an `Option`; a text field that is only ever tested for
 * truthiness (`x || 'Unknown'`) is a string whose empty value stands for every falsy one.
 * Dates are abstracted to millisecond timestamps.
 */
module StaffRecords {
  import opened Wrappers
  import opened JsValues

  /** a staff member of the dashboard list; `permissions` is an object listed in key order */
  datatype Staff = Staff(
    id: string,
    name: Option<string>,
    email: Option<string>,
    role: Option<string>,
    phone: Option<string>,
    department: Option<string>,
    status: Option<string>,
    permissions: seq<Entry>)

  /** a customer account and the id of the staff member who registered it */
  datatype Customer = Customer(id: string, accountNumber: string, registeredBy: Option<string>)

  /** a deposit, withdrawal, commission or other transaction */
  datatype Transaction = Transaction(
    id: string,
    txType: string,
    customerName: string,
    amount: real,
    time: int,
    recordedStaffId: Option<string>,
    mobileBankerId: Option<string>,
    status: string,
    isDeleted: bool)

  /** `staff.role === r` */
  predicate HasRole(s: Staff, r: string) {
    s.role == Some(r)
  }
}
