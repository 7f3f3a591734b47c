/**
 * The "all staff" tab: the search filter, the role badge colour and the dialog in which an
 * administrator resets a staff member's password, with its first-failure password check.
 */
module AllStaffTab {
  import opened Wrappers
  import Text
  import Sequences
  import opened StaffRecords
  import opened Submissions
  import SecurityTab

  // ---------------------------------------------------------------------------------------------
  // The password check

  const TooShort := "Password must be at least 8 characters long"
  const NoUppercase := "Password must contain at least one uppercase letter"
  const NoLowercase := "Password must contain at least one lowercase letter"
  const NoNumber := "Password must contain at least one number"

  /** `validatePassword`: the message of the first failing check, or "" when all pass */
  function StrengthMessage(password: string): (m: string)
    ensures |password| < 8 ==> m == TooShort
    ensures |password| >= 8 && !Text.HasUpper(password) ==> m == NoUppercase
    ensures |password| >= 8 && Text.HasUpper(password) && !Text.HasLower(password) ==> m == NoLowercase
    ensures |password| >= 8 && Text.HasUpper(password) && Text.HasLower(password) && !Text.HasDigit(password)
            ==> m == NoNumber
    ensures m in {"", TooShort, NoUppercase, NoLowercase, NoNumber}
  {
    if |password| < 8 then TooShort
    else if !Text.HasUpper(password) then NoUppercase
    else if !Text.HasLower(password) then NoLowercase
    else if !Text.HasDigit(password) then NoNumber
    else ""
  }

  /** The message check passes exactly when the security page reports all four flags true. */
  lemma StrengthMessageAgreesWithFlags(password: string)
    ensures StrengthMessage(password) == "" <==> SecurityTab.AllMet(SecurityTab.ValidatePassword(password))
    ensures StrengthMessage(password) == "" <==> SecurityTab.IsPasswordValid(password)
  {
  }

  const MismatchMessage := "Passwords do not match"
  const ResetFallback := "Failed to reset password. Please try again."

  /** the error the reset form reports before calling the server, "" when it calls it */
  function ResetFormError(newPassword: string, confirmPassword: string): (e: string)
    ensures newPassword != confirmPassword ==> e == MismatchMessage
    ensures newPassword == confirmPassword ==> e == StrengthMessage(newPassword)
    ensures e == "" <==> newPassword == confirmPassword && SecurityTab.IsPasswordValid(newPassword)
  {
    StrengthMessageAgreesWithFlags(newPassword);
    if newPassword != confirmPassword then MismatchMessage else StrengthMessage(newPassword)
  }

  // ---------------------------------------------------------------------------------------------
  // Search and badges

  /** `field?.toLowerCase().includes(term.toLowerCase())`; a missing field never matches */
  predicate FieldMatches(field: Option<string>, term: string) {
    field.Some? && Text.Contains(Text.Lower(field.value), Text.Lower(term))
  }

  predicate MatchesSearch(term: string, s: Staff) {
    FieldMatches(s.name, term) || FieldMatches(s.email, term) || FieldMatches(s.role, term)
  }

  function Matching(term: string): Staff -> bool {
    (s: Staff) => MatchesSearch(term, s)
  }

  /** `filteredStaff` */
  function FilteredStaff(list: seq<Staff>, term: string): (r: seq<Staff>)
    ensures forall s :: s in r <==> s in list && MatchesSearch(term, s)
    ensures |r| <= |list|
  {
    Sequences.FilterContents(list, Matching(term));
    Sequences.Filter(list, Matching(term))
  }

  /** The search keeps order, and the search is not case sensitive. */
  lemma FilteredStaffKeepsOrder(a: seq<Staff>, b: seq<Staff>, term: string)
    ensures FilteredStaff(a + b, term) == FilteredStaff(a, term) + FilteredStaff(b, term)
    ensures FilteredStaff(a, Text.Lower(term)) == FilteredStaff(a, term)
  {
    Sequences.FilterAppend(a, b, Matching(term));
    Text.LowerIdempotent(term);
    Sequences.FilterSame(a, Matching(Text.Lower(term)), Matching(term));
  }

  /**
   * An empty search keeps every member with a name, an email or a role, and drops a member with
   * none of the three.
   */
  lemma EmptySearch(list: seq<Staff>)
    ensures forall s :: s in FilteredStaff(list, "") <==> s in list && (s.name.Some? || s.email.Some? || s.role.Some?)
  {
    forall s: Staff | s.name.Some? || s.email.Some? || s.role.Some?
      ensures MatchesSearch("", s)
    {
      var f := if s.name.Some? then s.name.value else if s.email.Some? then s.email.value else s.role.value;
      Text.ContainsEmpty(Text.Lower(f));
    }
  }

  const BlueBadge := "bg-blue-100 text-blue-700"
  const PurpleBadge := "bg-purple-100 text-purple-700"
  const GreenBadge := "bg-green-100 text-green-700"
  const YellowBadge := "bg-yellow-100 text-yellow-700"
  const GreyBadge := "bg-gray-100 text-gray-700"

  /** `getRoleBadgeColor`: a lookup on the lower-cased role, grey for any other or no role */
  function RoleBadgeColor(role: Option<string>): (c: string)
    ensures role.None? ==> c == GreyBadge
    ensures role.Some? && Text.Lower(role.value) !in {"mobile_banker", "admin", "manager", "accountant"} ==> c == GreyBadge
    ensures role.Some? && Text.Lower(role.value) == "mobile_banker" ==> c == BlueBadge
    ensures role.Some? && Text.Lower(role.value) == "admin" ==> c == PurpleBadge
    ensures role.Some? && Text.Lower(role.value) == "manager" ==> c == GreenBadge
    ensures role.Some? && Text.Lower(role.value) == "accountant" ==> c == YellowBadge
  {
    if role.None? then GreyBadge
    else
      match Text.Lower(role.value)
      case "mobile_banker" => BlueBadge
      case "admin" => PurpleBadge
      case "manager" => GreenBadge
      case "accountant" => YellowBadge
      case _ => GreyBadge
  }

  /** The badge does not depend on letter case: roles spelled alike up to case share a colour. */
  lemma RoleBadgeColorIgnoresCase(role: string, other: string)
    requires Text.Lower(role) == Text.Lower(other)
    ensures RoleBadgeColor(Some(role)) == RoleBadgeColor(Some(other))
    ensures RoleBadgeColor(Some(role)) == RoleBadgeColor(Some(Text.Lower(role)))
  {
    Text.LowerIdempotent(role);
  }

  // ---------------------------------------------------------------------------------------------
  // The reset-password dialog

  class ResetPasswordDialog {
    var selected: Option<Staff>
    var newPassword: string
    var confirmPassword: string
    var passwordError: string
    var showPassword: bool
    var showConfirmPassword: bool
    var showResetModal: bool
    var isSubmitting: bool

    constructor()
      ensures selected == None && newPassword == "" && confirmPassword == "" && passwordError == ""
      ensures !showPassword && !showConfirmPassword && !showResetModal && !isSubmitting
    {
      selected := None;
      newPassword, confirmPassword, passwordError := "", "", "";
      showPassword, showConfirmPassword, showResetModal, isSubmitting := false, false, false, false;
    }

    /** `handleResetPasswordClick`: select the member and open a blank, hidden-text form */
    method OpenFor(staff: Staff)
      modifies this
      ensures selected == Some(staff) && showResetModal
      ensures newPassword == "" && confirmPassword == "" && passwordError == ""
      ensures !showPassword && !showConfirmPassword
      ensures isSubmitting == old(isSubmitting)
    {
      selected := Some(staff);
      newPassword, confirmPassword := "", "";
      passwordError := "";
      showPassword := false;
      showConfirmPassword := false;
      showResetModal := true;
    }

    /**
     * `handleResetSubmit` up to the `await`: a mismatch is reported before a weak password, and
     * `resetStaffPassword` is called only when both checks pass.
     */
    method BeginSubmit() returns (calls: bool)
      modifies this
      ensures calls <==> ResetFormError(newPassword, confirmPassword) == ""
      ensures passwordError == ResetFormError(newPassword, confirmPassword)
      ensures isSubmitting == (calls || old(isSubmitting))
      ensures selected == old(selected) && newPassword == old(newPassword) && confirmPassword == old(confirmPassword)
      ensures showPassword == old(showPassword) && showConfirmPassword == old(showConfirmPassword)
      ensures showResetModal == old(showResetModal)
    {
      passwordError := "";
      if newPassword != confirmPassword {
        passwordError := MismatchMessage;
        return false;
      }
      var validationError := StrengthMessage(newPassword);
      if validationError != "" {
        passwordError := validationError;
        return false;
      }
      isSubmitting := true;
      return true;
    }

    /**
     * `handleResetSubmit` after the call: a truthy status closes the dialog, clears the selection
     * and empties both fields; a falsy one changes nothing; a throw sets the error.
     */
    method FinishSubmit(outcome: StatusOutcome)
      modifies this
      ensures !isSubmitting
      ensures outcome == Returned(true) ==>
                !showResetModal && selected == None && newPassword == "" && confirmPassword == ""
      ensures outcome != Returned(true) ==>
                showResetModal == old(showResetModal) && selected == old(selected)
                && newPassword == old(newPassword) && confirmPassword == old(confirmPassword)
      ensures outcome.Threw? ==> passwordError == MessageOr(outcome.message, ResetFallback)
      ensures !outcome.Threw? ==> passwordError == old(passwordError)
      ensures showPassword == old(showPassword) && showConfirmPassword == old(showConfirmPassword)
    {
      match outcome {
        case Returned(status) =>
          if status {
            showResetModal := false;
            selected := None;
            newPassword, confirmPassword := "", "";
          }
        case Threw(message) =>
          passwordError := MessageOr(message, ResetFallback);
      }
      isSubmitting := false;
    }
  }
}
