/**
 * The staff management page: the two role lists its tabs show and the selected member's
 * transactions.
 */
module StaffPage {
  import opened Wrappers
  import Sequences
  import opened StaffRecords
  import StaffDetail

  /** the roles the mobile bankers tab lists */
  predicate InBankersTab(s: Staff) {
    HasRole(s, "mobile_banker") || HasRole(s, "teller") || HasRole(s, "accountant")
  }

  /** the staff the other-staff tab lists: everyone but mobile bankers */
  predicate InOtherTab(s: Staff) {
    !HasRole(s, "mobile_banker")
  }

  function BankersTest(): Staff -> bool {
    (s: Staff) => InBankersTab(s)
  }

  function OtherTest(): Staff -> bool {
    (s: Staff) => InOtherTab(s)
  }

  /** `mobileBankers` */
  function MobileBankers(list: seq<Staff>): (r: seq<Staff>)
    ensures forall s :: s in r <==> s in list && s.role in {Some("mobile_banker"), Some("teller"), Some("accountant")}
  {
    Sequences.FilterContents(list, BankersTest());
    Sequences.Filter(list, BankersTest())
  }

  /** `otherStaff` */
  function OtherStaff(list: seq<Staff>): (r: seq<Staff>)
    ensures forall s :: s in r <==> s in list && s.role != Some("mobile_banker")
  {
    Sequences.FilterContents(list, OtherTest());
    Sequences.Filter(list, OtherTest())
  }

  /** Both lists keep the order of the staff list. */
  lemma RoleListsKeepOrder(a: seq<Staff>, b: seq<Staff>)
    ensures MobileBankers(a + b) == MobileBankers(a) + MobileBankers(b)
    ensures OtherStaff(a + b) == OtherStaff(a) + OtherStaff(b)
  {
    Sequences.FilterAppend(a, b, BankersTest());
    Sequences.FilterAppend(a, b, OtherTest());
  }

  /**
   * The two lists overlap in the tellers and accountants; only mobile bankers are listed in the
   * bankers tab alone; and every member is listed in at least one of the two.
   */
  lemma RoleListsOverlap(list: seq<Staff>)
    ensures forall s :: s in MobileBankers(list) && s in OtherStaff(list) <==>
                          s in list && s.role in {Some("teller"), Some("accountant")}
    ensures forall s :: s in MobileBankers(list) && s !in OtherStaff(list) <==>
                          s in list && s.role == Some("mobile_banker")
    ensures forall s :: s in list ==> s in MobileBankers(list) || s in OtherStaff(list)
  {
  }

  /** `selectedStaff?.id`: the selected member's id, or `undefined` while nobody is selected */
  function SelectedId(selected: Option<Staff>): (r: Option<string>)
    ensures r.Some? <==> selected.Some?
    ensures selected.Some? ==> r == Some(selected.value.id)
  {
    if selected.Some? then Some(selected.value.id) else None
  }

  /** `staffTransactions`: the transactions recorded by the selected member, in list order */
  function StaffTransactions(txs: seq<Transaction>, selected: Option<Staff>): (r: seq<Transaction>)
    ensures forall t :: t in r <==> t in txs && t.recordedStaffId == SelectedId(selected)
  {
    StaffDetail.StaffTransactions(txs, SelectedId(selected))
  }

  /**
   * With a member selected the list holds exactly that member's transactions; with nobody
   * selected, `undefined === undefined` keeps exactly the transactions no staff member recorded.
   */
  lemma StaffTransactionsOfSelection(txs: seq<Transaction>, selected: Option<Staff>)
    ensures selected.Some? ==>
              forall t :: t in StaffTransactions(txs, selected) <==> t in txs && t.recordedStaffId == Some(selected.value.id)
    ensures selected.None? ==>
              forall t :: t in StaffTransactions(txs, selected) <==> t in txs && t.recordedStaffId.None?
  {
  }

  /** The filter keeps the order of the transaction list. */
  lemma StaffTransactionsKeepOrder(a: seq<Transaction>, b: seq<Transaction>, selected: Option<Staff>)
    ensures StaffTransactions(a + b, selected) == StaffTransactions(a, selected) + StaffTransactions(b, selected)
  {
    StaffDetail.FiltersKeepOrder([], [], a, b, SelectedId(selected));
  }
}
