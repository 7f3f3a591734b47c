/**
 * The new-loan form around the calculator: the gate that decides when the calculator runs, the
 * validation that fills an error dictionary key by key, and the group-member list (add with
 * duplicate rejection, remove by customer id, total share).
 *
 * A numeric text field is `Blank` (the empty string, which JavaScript treats as false) or
 * `Entered(parsed)`, where `parsed` is what `parseFloat`/`parseInt` made of the text and `None`
 * stands for NaN. Every comparison with NaN is false.
 */
module LoanForm {
  import opened Wrappers
  import Sequences
  import CalendarDates
  import opened LoanCalculator

  datatype Field<T> = Blank | Entered(parsed: Option<T>)

  datatype LoanType = Individual | Group

  datatype Customer = Customer(id: string, name: string, phone: string)

  /** `loanShare` is `parseFloat` of the entered share: `None` when that is NaN */
  datatype GroupMember = GroupMember(customerId: string, customerName: string, customerPhone: string,
                                     loanShare: Option<real>)

  /** the form fields the gate, the validation and the group list read; "" is an unset text field */
  datatype LoanFormData = LoanFormData(
    loanType: LoanType,
    customerId: string,
    groupName: string,
    groupMembers: seq<GroupMember>,
    loanCategory: string,
    loanAmount: Field<real>,
    interestRate: Field<real>,
    duration: Field<int>,
    interestMethod: InterestMethod,
    requestDate: Field<CalendarDates.Date>,
    purpose: string,
    guarantor: string,
    guarantorPhone: string)

  // ---------------------------------------------------------------------------------------------
  // The recompute gate

  /**
   * The effect's test: the four fields are non-empty, amount, rate and months parse to numbers
   * above zero and the request date parses to a real date.
   */
  predicate GateOpen(f: LoanFormData) {
    && f.loanAmount.Entered? && f.loanAmount.parsed.Some? && f.loanAmount.parsed.value > 0.0
    && f.interestRate.Entered? && f.interestRate.parsed.Some? && f.interestRate.parsed.value > 0.0
    && f.duration.Entered? && f.duration.parsed.Some? && f.duration.parsed.value > 0
    && f.requestDate.Entered? && f.requestDate.parsed.Some? && CalendarDates.ValidDate(f.requestDate.parsed.value)
  }

  /** The gate opens exactly on inputs the calculator accepts. */
  lemma GateOpenIsValidInputs(f: LoanFormData)
    requires GateOpen(f)
    ensures ValidInputs(f.loanAmount.parsed.value, f.interestRate.parsed.value, f.duration.parsed.value,
                        f.requestDate.parsed.value)
  {
  }

  // ---------------------------------------------------------------------------------------------
  // Validation

  const CustomerMissing := "Please select a customer"
  const GroupNameMissing := "Please enter a group name"
  const TooFewMembers := "Group loan requires at least 2 members"
  const CategoryMissing := "Please select loan category"
  const AmountInvalid := "Loan amount must be greater than 0"
  const RateInvalid := "Please enter a valid interest rate"
  const DurationInvalid := "Duration must be greater than 0"
  const RequestDateMissing := "Please select request date"
  const PurposeMissing := "Please enter loan purpose"
  const GuarantorMissing := "Please enter guarantor name"
  const GuarantorPhoneMissing := "Please enter guarantor phone"

  /** the keys of the form's error dictionary; `Name` is the key as the form writes it */
  datatype ErrorKey =
    | CustomerIdKey | GroupNameKey | GroupMembersKey | LoanCategoryKey | LoanAmountKey | InterestRateKey
    | DurationKey | RequestDateKey | PurposeKey | GuarantorKey | GuarantorPhoneKey | GroupMemberKey
  {
    function Name(): string {
      match this
      case CustomerIdKey => "customer_id"
      case GroupNameKey => "groupName"
      case GroupMembersKey => "groupMembers"
      case LoanCategoryKey => "loanCategory"
      case LoanAmountKey => "loanAmount"
      case InterestRateKey => "interestRate"
      case DurationKey => "duration"
      case RequestDateKey => "requestDate"
      case PurposeKey => "purpose"
      case GuarantorKey => "guarantor"
      case GuarantorPhoneKey => "guarantorPhone"
      case GroupMemberKey => "groupMember"
    }

    /** the position of the key's check in `validateForm`; the group-member key is not checked there */
    function Position(): nat {
      match this
      case CustomerIdKey => 0
      case GroupNameKey => 1
      case GroupMembersKey => 2
      case LoanCategoryKey => 3
      case LoanAmountKey => 4
      case InterestRateKey => 5
      case DurationKey => 6
      case RequestDateKey => 7
      case PurposeKey => 8
      case GuarantorKey => 9
      case GuarantorPhoneKey => 10
      case GroupMemberKey => 11
    }
  }

  /** the number of checks `validateForm` makes */
  const CheckCount := 11

  /** `!field || parse(field) <= 0`: blank or a number not above zero; NaN passes */
  predicate AtMostZero(x: Field<real>) {
    x.Blank? || (x.parsed.Some? && x.parsed.value <= 0.0)
  }

  /** `!field || parse(field) < 0`: blank or a negative number; NaN passes */
  predicate Negative(x: Field<real>) {
    x.Blank? || (x.parsed.Some? && x.parsed.value < 0.0)
  }

  /** the check the form makes for each error key */
  predicate Fails(f: LoanFormData, key: ErrorKey) {
    match key
    case CustomerIdKey => f.loanType == Individual && f.customerId == ""
    case GroupNameKey => f.loanType == Group && f.groupName == ""
    case GroupMembersKey => f.loanType == Group && |f.groupMembers| < 2
    case LoanCategoryKey => f.loanCategory == ""
    case LoanAmountKey => AtMostZero(f.loanAmount)
    case InterestRateKey => Negative(f.interestRate)
    case DurationKey => f.duration.Blank? || (f.duration.parsed.Some? && f.duration.parsed.value <= 0)
    case RequestDateKey => f.requestDate.Blank?
    case PurposeKey => f.purpose == ""
    case GuarantorKey => f.guarantor == ""
    case GuarantorPhoneKey => f.guarantorPhone == ""
    case GroupMemberKey => false
  }

  /** the message `validateForm` stores under each key it checks */
  function Message(key: ErrorKey): string
    requires key != GroupMemberKey
  {
    match key
    case CustomerIdKey => CustomerMissing
    case GroupNameKey => GroupNameMissing
    case GroupMembersKey => TooFewMembers
    case LoanCategoryKey => CategoryMissing
    case LoanAmountKey => AmountInvalid
    case InterestRateKey => RateInvalid
    case DurationKey => DurationInvalid
    case RequestDateKey => RequestDateMissing
    case PurposeKey => PurposeMissing
    case GuarantorKey => GuarantorMissing
    case GuarantorPhoneKey => GuarantorPhoneMissing
  }

  /** the error dictionary validation produces: one message for every failing check */
  function ExpectedErrors(f: LoanFormData): map<ErrorKey, string> {
    map key: ErrorKey | Fails(f, key) :: Message(key)
  }

  /** the dictionary after the first n checks */
  function ErrorsAfter(f: LoanFormData, n: nat): map<ErrorKey, string> {
    map key: ErrorKey | key.Position() < n && Fails(f, key) :: Message(key)
  }

  /** making the next check adds its message exactly when it fails */
  lemma CheckStep(f: LoanFormData, key: ErrorKey)
    ensures ErrorsAfter(f, key.Position() + 1)
            == if Fails(f, key) then ErrorsAfter(f, key.Position())[key := Message(key)] else ErrorsAfter(f, key.Position())
  {
  }

  /** after all the checks the dictionary is the whole set of errors */
  lemma AllChecksMade(f: LoanFormData)
    ensures ErrorsAfter(f, CheckCount) == ExpectedErrors(f)
  {
  }

  /**
   * The form is valid (no error key) exactly when: an individual loan has a customer, a group loan
   * has a name and two or more members, the category, purpose, guarantor and guarantor phone are
   * filled in, the request date is non-empty, the amount is not blank and not a number at or below
   * zero, the rate is not blank and not negative, and the duration is not blank and not at or below
   * zero.
   */
  lemma {:induction false} ValidIff(f: LoanFormData)
    ensures ExpectedErrors(f) == map[] <==>
      && (f.loanType == Individual ==> f.customerId != "")
      && (f.loanType == Group ==> f.groupName != "" && |f.groupMembers| >= 2)
      && f.loanCategory != ""
      && !AtMostZero(f.loanAmount)
      && !Negative(f.interestRate)
      && f.duration.Entered? && !(f.duration.parsed.Some? && f.duration.parsed.value <= 0)
      && f.requestDate.Entered?
      && f.purpose != "" && f.guarantor != "" && f.guarantorPhone != ""
  {
    var e := ExpectedErrors(f);
    assert Fails(f, CustomerIdKey) ==> CustomerIdKey in e;
    assert Fails(f, GroupNameKey) ==> GroupNameKey in e;
    assert Fails(f, GroupMembersKey) ==> GroupMembersKey in e;
    assert Fails(f, LoanCategoryKey) ==> LoanCategoryKey in e;
    assert Fails(f, LoanAmountKey) ==> LoanAmountKey in e;
    assert Fails(f, InterestRateKey) ==> InterestRateKey in e;
    assert Fails(f, DurationKey) ==> DurationKey in e;
    assert Fails(f, RequestDateKey) ==> RequestDateKey in e;
    assert Fails(f, PurposeKey) ==> PurposeKey in e;
    assert Fails(f, GuarantorKey) ==> GuarantorKey in e;
    assert Fails(f, GuarantorPhoneKey) ==> GuarantorPhoneKey in e;
  }

  /** A rate of exactly 0% passes validation, yet the calculator never runs on it. */
  lemma ZeroRatePassesValidationButNeverCalculates(f: LoanFormData)
    requires f.interestRate == Entered(Some(0.0))
    ensures InterestRateKey !in ExpectedErrors(f)
    ensures !GateOpen(f)
  {
  }

  /** An amount that does not parse as a number (NaN) passes validation; the calculator does not run. */
  lemma UnparsableAmountPassesValidation(f: LoanFormData)
    requires f.loanAmount == Entered(None)
    ensures LoanAmountKey !in ExpectedErrors(f)
    ensures !GateOpen(f)
  {
  }

  /** Whenever the calculator runs, validation has nothing to say about amount, rate, duration or date. */
  lemma GateOpenPassesNumericChecks(f: LoanFormData)
    requires GateOpen(f)
    ensures LoanAmountKey !in ExpectedErrors(f) && InterestRateKey !in ExpectedErrors(f)
    ensures DurationKey !in ExpectedErrors(f) && RequestDateKey !in ExpectedErrors(f)
  {
  }

  // ---------------------------------------------------------------------------------------------
  // Group members

  /** `customers.find(c => c.id === id)`: the first customer with that id */
  function FindCustomer(customers: seq<Customer>, id: string): (r: Option<Customer>)
    ensures r.Some? ==> r.value in customers && r.value.id == id
    ensures r.None? <==> forall c :: c in customers ==> c.id != id
    ensures forall i :: FirstWithId(customers, id, i) ==> r == Some(customers[i])
  {
    if customers == [] then None
    else if customers[0].id == id then Some(customers[0])
    else
      assert forall c :: c in customers ==> c == customers[0] || c in customers[1..];
      var rest := FindCustomer(customers[1..], id);
      FirstCustomerInTail(customers, id, rest);
      rest
  }

  /** i is the first position of a customer with that id */
  ghost predicate FirstWithId(customers: seq<Customer>, id: string, i: int) {
    0 <= i < |customers| && customers[i].id == id && forall j :: 0 <= j < i ==> customers[j].id != id
  }

  /** the first match in the tail is the first match in the list when the head does not match */
  lemma FirstCustomerInTail(customers: seq<Customer>, id: string, rest: Option<Customer>)
    requires customers != [] && customers[0].id != id
    requires forall i :: FirstWithId(customers[1..], id, i) ==> rest == Some(customers[1..][i])
    ensures forall i :: FirstWithId(customers, id, i) ==> rest == Some(customers[i])
  {
    forall i | FirstWithId(customers, id, i)
      ensures rest == Some(customers[i])
    {
      assert customers[1..][i - 1] == customers[i];
      forall j | 0 <= j < i - 1
        ensures customers[1..][j].id != id
      {
        assert customers[1..][j] == customers[j + 1];
      }
      assert FirstWithId(customers[1..], id, i - 1);
    }
  }

  /** `members.some(m => m.customerId === id)` */
  predicate HasMember(members: seq<GroupMember>, id: string) {
    exists i :: 0 <= i < |members| && members[i].customerId == id
  }

  ghost predicate DistinctIds(members: seq<GroupMember>) {
    forall i, j :: 0 <= i < j < |members| ==> members[i].customerId != members[j].customerId
  }

  function NewMember(c: Customer, share: Option<real>): (m: GroupMember)
    ensures m.customerId == c.id
  {
    GroupMember(c.id, c.name, c.phone, share)
  }

  /** Adding a customer not yet in the list keeps the customer ids distinct. */
  lemma AppendKeepsIdsDistinct(members: seq<GroupMember>, m: GroupMember)
    requires DistinctIds(members) && !HasMember(members, m.customerId)
    ensures DistinctIds(members + [m])
  {
  }

  /** `members.filter(m => m.customerId !== id)` */
  function RemoveGroupMember(members: seq<GroupMember>, id: string): (r: seq<GroupMember>) {
    Sequences.Filter(members, (m: GroupMember) => m.customerId != id)
  }

  /** Removal drops exactly the members with that id, keeps the others in order, and leaves no such id. */
  lemma RemoveGroupMemberContents(members: seq<GroupMember>, id: string)
    ensures forall m :: m in RemoveGroupMember(members, id) <==> m in members && m.customerId != id
    ensures !HasMember(RemoveGroupMember(members, id), id)
    ensures forall m :: multiset(RemoveGroupMember(members, id))[m]
                        == if m.customerId != id then multiset(members)[m] else 0
  {
    var p := (m: GroupMember) => m.customerId != id;
    Sequences.FilterContents(members, p);
    var r := RemoveGroupMember(members, id);
    forall i | 0 <= i < |r|
      ensures r[i].customerId != id
    {
      assert r[i] in r;
    }
  }

  /** Removing the member just added gives back the list from before, when its id was new. */
  lemma RemoveUndoesAppend(members: seq<GroupMember>, m: GroupMember)
    requires !HasMember(members, m.customerId)
    ensures RemoveGroupMember(members + [m], m.customerId) == members
  {
    var p := (x: GroupMember) => x.customerId != m.customerId;
    Sequences.FilterAppend(members, [m], p);
    forall x | x in members
      ensures p(x)
    {
      var i :| 0 <= i < |members| && members[i] == x;
    }
    Sequences.FilterAll(members, p);
    assert Sequences.Filter([m], p) == [];
  }

  /** the reduce's sum of the shares: `None` as soon as one share is NaN */
  function ShareSum(members: seq<GroupMember>): Option<real> {
    if members == [] then Some(0.0)
    else
      var rest := ShareSum(members[..|members| - 1]);
      var last := members[|members| - 1].loanShare;
      if rest.Some? && last.Some? then Some(rest.value + last.value) else None
  }

  /** `reduce(...) || 0`: a NaN sum shows as 0 */
  function TotalGroupShare(members: seq<GroupMember>): real {
    ShareSum(members).GetOr(0.0)
  }

  /** The total is the sum of the numeric shares; one NaN share makes the whole total 0. */
  lemma {:induction false} TotalGroupShareIsSum(members: seq<GroupMember>)
    ensures (forall i :: 0 <= i < |members| ==> members[i].loanShare.Some?) ==>
              ShareSum(members).Some? && TotalGroupShare(members) == Sequences.Sum(Shares(members))
    ensures (exists i :: 0 <= i < |members| && members[i].loanShare.None?) ==>
              ShareSum(members).None? && TotalGroupShare(members) == 0.0
  {
    if members != [] {
      var init := members[..|members| - 1];
      TotalGroupShareIsSum(init);
      assert Shares(members)[..|members| - 1] == Shares(init);
      if exists i :: 0 <= i < |members| && members[i].loanShare.None? {
        var i :| 0 <= i < |members| && members[i].loanShare.None?;
        if i < |members| - 1 {
          assert init[i].loanShare.None?;
        }
      }
    }
  }

  /** the numeric shares, in member order (only meaningful when none is NaN) */
  function Shares(members: seq<GroupMember>): (r: seq<real>)
    ensures |r| == |members|
  {
    seq(|members|, i requires 0 <= i < |members| => members[i].loanShare.GetOr(0.0))
  }

  // ---------------------------------------------------------------------------------------------
  // The modal's state

  const MemberInputMissing := "Please select a customer and enter loan share"
  const AlreadyInGroup := "Customer already added to group"

  /** one check of `validateForm`: when it fails, its message goes into the dictionary */
  method Check(errors: map<ErrorKey, string>, f: LoanFormData, key: ErrorKey, n: nat) returns (r: map<ErrorKey, string>)
    requires key.Position() == n && errors == ErrorsAfter(f, n)
    ensures r == ErrorsAfter(f, n + 1)
  {
    r := errors;
    if Fails(f, key) {
      r := r[key := Message(key)];
    }
    CheckStep(f, key);
  }

  /** the checks of `validateForm`, in its order, on a fresh dictionary */
  method CheckForm(f: LoanFormData) returns (newErrors: map<ErrorKey, string>)
    ensures newErrors == ExpectedErrors(f)
  {
    newErrors := map[];
    newErrors := Check(newErrors, f, CustomerIdKey, 0);
    newErrors := Check(newErrors, f, GroupNameKey, 1);
    newErrors := Check(newErrors, f, GroupMembersKey, 2);
    newErrors := Check(newErrors, f, LoanCategoryKey, 3);
    newErrors := Check(newErrors, f, LoanAmountKey, 4);
    newErrors := Check(newErrors, f, InterestRateKey, 5);
    newErrors := Check(newErrors, f, DurationKey, 6);
    newErrors := Check(newErrors, f, RequestDateKey, 7);
    newErrors := Check(newErrors, f, PurposeKey, 8);
    newErrors := Check(newErrors, f, GuarantorKey, 9);
    newErrors := Check(newErrors, f, GuarantorPhoneKey, 10);
    AllChecksMade(f);
  }

  class LoanModal {
    var form: LoanFormData
    var errors: map<ErrorKey, string>
    var calculations: Option<Calculation>
    var selectedCustomer: string
    var memberShare: Field<real>
    const availableCustomers: seq<Customer>

    /** the empty form: an individual loan with the fixed method, requested today */
    constructor(today: CalendarDates.Date, customers: seq<Customer>)
      ensures form == LoanFormData(Individual, "", "", [], "", Blank, Blank, Blank, Fixed, Entered(Some(today)), "", "", "")
      ensures errors == map[] && calculations == None && selectedCustomer == "" && memberShare == Blank
      ensures availableCustomers == customers
    {
      form := LoanFormData(Individual, "", "", [], "", Blank, Blank, Blank, Fixed, Entered(Some(today)), "", "", "");
      errors := map[];
      calculations := None;
      selectedCustomer := "";
      memberShare := Blank;
      availableCustomers := customers;
    }

    /**
     * The recompute effect: when the gate opens the calculator's result replaces the previous one;
     * otherwise the previous result stays.
     */
    method Recalculate()
      modifies this
      ensures GateOpen(form) ==>
        calculations == Some(Calculate(form.interestMethod, form.loanAmount.parsed.value, form.interestRate.parsed.value,
                                       form.duration.parsed.value, form.requestDate.parsed.value))
      ensures !GateOpen(form) ==> calculations == old(calculations)
      ensures form == old(form) && errors == old(errors)
      ensures selectedCustomer == old(selectedCustomer) && memberShare == old(memberShare)
    {
      if form.loanAmount.Entered? && form.interestRate.Entered? && form.duration.Entered? && form.requestDate.Entered? {
        var amount := form.loanAmount.parsed;
        var rate := form.interestRate.parsed;
        var months := form.duration.parsed;
        var startDate := form.requestDate.parsed;
        if && amount.Some? && amount.value > 0.0 && rate.Some? && rate.value > 0.0
           && months.Some? && months.value > 0 && startDate.Some? && CalendarDates.ValidDate(startDate.value)
        {
          var c := CalculateLoan(form.interestMethod, amount.value, rate.value, months.value, startDate.value);
          calculations := Some(c);
        }
      }
    }

    /** `validateForm`: a fresh error dictionary, filled check by check, replaces the old one */
    method ValidateForm() returns (valid: bool)
      modifies this
      ensures errors == ExpectedErrors(form)
      ensures valid <==> errors == map[]
      ensures form == old(form) && calculations == old(calculations)
      ensures selectedCustomer == old(selectedCustomer) && memberShare == old(memberShare)
    {
      var newErrors := CheckForm(form);
      errors := newErrors;
      valid := |newErrors| == 0;
    }

    /**
     * `addGroupMember`: a missing selection or share sets an error; an unknown customer changes
     * nothing; a customer already in the group sets an error; otherwise the customer is appended
     * with the parsed share, the inputs are cleared and the member error is cleared.
     */
    method AddGroupMember()
      modifies this
      ensures old(selectedCustomer) == "" || old(memberShare).Blank? ==>
        form == old(form) && errors == old(errors)[GroupMemberKey := MemberInputMissing]
        && selectedCustomer == old(selectedCustomer) && memberShare == old(memberShare)
      ensures old(selectedCustomer) != "" && old(memberShare).Entered? && FindCustomer(availableCustomers, old(selectedCustomer)).None? ==>
        form == old(form) && errors == old(errors)
        && selectedCustomer == old(selectedCustomer) && memberShare == old(memberShare)
      ensures old(selectedCustomer) != "" && old(memberShare).Entered? && FindCustomer(availableCustomers, old(selectedCustomer)).Some?
              && HasMember(old(form.groupMembers), old(selectedCustomer)) ==>
        form == old(form) && errors == old(errors)[GroupMemberKey := AlreadyInGroup]
        && selectedCustomer == old(selectedCustomer) && memberShare == old(memberShare)
      ensures old(selectedCustomer) != "" && old(memberShare).Entered? && FindCustomer(availableCustomers, old(selectedCustomer)).Some?
              && !HasMember(old(form.groupMembers), old(selectedCustomer)) ==>
        form == old(form).(groupMembers := old(form.groupMembers)
                                           + [NewMember(FindCustomer(availableCustomers, old(selectedCustomer)).value, old(memberShare).parsed)])
        && errors == old(errors)[GroupMemberKey := ""]
        && selectedCustomer == "" && memberShare == Blank
      ensures DistinctIds(old(form.groupMembers)) ==> DistinctIds(form.groupMembers)
      ensures calculations == old(calculations)
    {
      if selectedCustomer == "" || memberShare.Blank? {
        errors := errors[GroupMemberKey := MemberInputMissing];
        return;
      }
      var customer := FindCustomer(availableCustomers, selectedCustomer);
      if customer.None? {
        return;
      }
      if HasMember(form.groupMembers, customer.value.id) {
        errors := errors[GroupMemberKey := AlreadyInGroup];
        return;
      }
      var m := NewMember(customer.value, memberShare.parsed);
      if DistinctIds(form.groupMembers) {
        AppendKeepsIdsDistinct(form.groupMembers, m);
      }
      form := form.(groupMembers := form.groupMembers + [m]);
      selectedCustomer := "";
      memberShare := Blank;
      errors := errors[GroupMemberKey := ""];
    }

    /** `removeGroupMember`: only the member list changes */
    method RemoveMember(id: string)
      modifies this
      ensures form == old(form).(groupMembers := RemoveGroupMember(old(form.groupMembers), id))
      ensures errors == old(errors) && calculations == old(calculations)
      ensures selectedCustomer == old(selectedCustomer) && memberShare == old(memberShare)
    {
      form := form.(groupMembers := RemoveGroupMember(form.groupMembers, id));
    }
  }
}
