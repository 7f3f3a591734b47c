/**
 * The page a staff member must pass after signing in with a temporary password: a five-requirement
 * password check, the submit checks, and the stored user's `change_password_after_signin` flag.
 */
module ForcePasswordChange {
  import opened Wrappers
  import Text
  import opened JsValues
  import opened Submissions
  import SecurityTab

  /** the special characters of the fifth requirement */
  const Specials := "!@#$%^&*(),.?\":{}|<>"

  datatype Requirements = Requirements(length: bool, uppercase: bool, lowercase: bool, number: bool, special: bool)

  /** `validatePassword` */
  function ValidatePassword(password: string): (req: Requirements)
    ensures req.length <==> |password| >= 8
    ensures req.uppercase <==> exists i :: 0 <= i < |password| && Text.IsUpper(password[i])
    ensures req.lowercase <==> exists i :: 0 <= i < |password| && Text.IsLower(password[i])
    ensures req.number <==> exists i :: 0 <= i < |password| && Text.IsDigit(password[i])
    ensures req.special <==> exists i :: 0 <= i < |password| && password[i] in Specials
  {
    Requirements(|password| >= 8, Text.HasUpper(password), Text.HasLower(password), Text.HasDigit(password),
                 Text.AnyOf(password, Specials))
  }

  /** `isPasswordValid`: all five requirements hold */
  function IsPasswordValid(password: string): bool {
    var req := ValidatePassword(password);
    req.length && req.uppercase && req.lowercase && req.number && req.special
  }

  /**
   * The five-requirement check is the four-requirement check of the security page plus a special
   * character: every password accepted here is accepted there, but not the other way round.
   */
  lemma StricterThanSecurityPage(password: string)
    ensures IsPasswordValid(password) <==> SecurityTab.IsPasswordValid(password) && ValidatePassword(password).special
    ensures IsPasswordValid(password) ==> SecurityTab.IsPasswordValid(password)
    ensures SecurityTab.IsPasswordValid("Password1") && !IsPasswordValid("Password1")
  {
    var p := "Password1";
    assert Text.IsUpper(p[0]) && Text.IsLower(p[1]) && Text.IsDigit(p[8]);
    forall i | 0 <= i < |p|
      ensures p[i] !in Specials
    {
    }
  }

  const MismatchMessage := "New passwords do not match"
  const WeakMessage := "Password does not meet all requirements"
  const SameMessage := "New password must be different from current password"
  const RejectedMessage := "Failed to change password"
  const Fallback := "Failed to change password. Please try again."

  /** the key of the stored user that sends the user to this page */
  const ChangeFlag := "change_password_after_signin"

  /**
   * The error the form reports before calling the server, "" when it calls it. The current
   * password comes from the navigation state and is `None` when the page was opened without it.
   */
  function SubmitError(newPassword: string, confirmPassword: string, currentPassword: Option<string>): (e: string)
    ensures newPassword != confirmPassword ==> e == MismatchMessage
    ensures newPassword == confirmPassword && !IsPasswordValid(newPassword) ==> e == WeakMessage
    ensures newPassword == confirmPassword && IsPasswordValid(newPassword) && currentPassword == Some(newPassword)
            ==> e == SameMessage
    ensures e == "" <==> newPassword == confirmPassword && IsPasswordValid(newPassword) && currentPassword != Some(newPassword)
  {
    if newPassword != confirmPassword then MismatchMessage
    else if !IsPasswordValid(newPassword) then WeakMessage
    else if currentPassword == Some(newPassword) then SameMessage
    else ""
  }

  /** the stored user after a successful change: the flag is cleared, nothing else changes */
  function PasswordChanged(user: map<string, Json>): (r: map<string, Json>)
    ensures r.Keys == user.Keys + {ChangeFlag}
    ensures r[ChangeFlag] == JBool(false)
    ensures forall k :: k in user && k != ChangeFlag ==> r[k] == user[k]
  {
    user[ChangeFlag := JBool(false)]
  }

  class ForcedChangeForm {
    var currentPassword: Option<string>
    var newPassword: string
    var confirmPassword: string
    var errorMessage: string
    var isSubmitting: bool
    var storedUser: map<string, Json>

    constructor(currentPassword: Option<string>, storedUser: map<string, Json>)
      ensures this.currentPassword == currentPassword && this.storedUser == storedUser
      ensures newPassword == "" && confirmPassword == "" && errorMessage == "" && !isSubmitting
    {
      this.currentPassword := currentPassword;
      this.storedUser := storedUser;
      newPassword, confirmPassword, errorMessage := "", "", "";
      isSubmitting := false;
    }

    /** the submit button's `disabled` */
    function SubmitDisabled(): (disabled: bool)
      reads this
      ensures !disabled <==> !isSubmitting && newPassword == confirmPassword && IsPasswordValid(newPassword)
      ensures !disabled ==> SubmitError(newPassword, confirmPassword, currentPassword) in {"", SameMessage}
    {
      isSubmitting || !IsPasswordValid(newPassword) || newPassword != confirmPassword
    }

    /**
     * `handlePasswordSubmit` up to the `await`: exactly one error, that of the first failing check
     * (mismatch, weak, same as current), and `forceResetPassword` is called only when none fails.
     */
    method BeginSubmit() returns (calls: bool)
      modifies this
      ensures calls <==> SubmitError(newPassword, confirmPassword, currentPassword) == ""
      ensures errorMessage == SubmitError(newPassword, confirmPassword, currentPassword)
      ensures isSubmitting == (calls || old(isSubmitting))
      ensures currentPassword == old(currentPassword) && newPassword == old(newPassword)
      ensures confirmPassword == old(confirmPassword) && storedUser == old(storedUser)
    {
      errorMessage := "";
      if newPassword != confirmPassword {
        errorMessage := MismatchMessage;
        return false;
      }
      if !IsPasswordValid(newPassword) {
        errorMessage := WeakMessage;
        return false;
      }
      if currentPassword == Some(newPassword) {
        errorMessage := SameMessage;
        return false;
      }
      isSubmitting := true;
      return true;
    }

    /**
     * `handlePasswordSubmit` after the call: a truthy status clears the stored user's flag; a falsy
     * status or a throw sets the error and leaves the stored user alone.
     */
    method FinishSubmit(outcome: StatusOutcome)
      modifies this
      ensures !isSubmitting
      ensures outcome == Returned(true) ==> storedUser == PasswordChanged(old(storedUser)) && errorMessage == old(errorMessage)
      ensures outcome != Returned(true) ==> storedUser == old(storedUser)
      ensures outcome == Returned(false) ==> errorMessage == RejectedMessage
      ensures outcome.Threw? ==> errorMessage == MessageOr(outcome.message, Fallback)
      ensures currentPassword == old(currentPassword) && newPassword == old(newPassword)
      ensures confirmPassword == old(confirmPassword)
    {
      match outcome {
        case Returned(status) =>
          if status {
            var userData := storedUser;
            userData := userData[ChangeFlag := JBool(false)];
            storedUser := userData;
          } else {
            errorMessage := MessageOr(RejectedMessage, Fallback);
          }
        case Threw(message) =>
          errorMessage := MessageOr(message, Fallback);
      }
      isSubmitting := false;
    }
  }
}
