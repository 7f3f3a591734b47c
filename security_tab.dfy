/**
 * The security settings page: the four-requirement password check, the password change form and
 * the profile form whose values are merged into the stored user record.
 */
module SecurityTab {
  import Text
  import opened JsValues
  import opened Submissions

  // ---------------------------------------------------------------------------------------------
  // The password policy

  /** the four requirement flags the page shows */
  datatype Requirements = Requirements(length: bool, uppercase: bool, lowercase: bool, number: bool)

  /** `validatePassword`: each flag says whether one requirement holds */
  function ValidatePassword(password: string): (req: Requirements)
    ensures req.length <==> |password| >= 8
    ensures req.uppercase <==> exists i :: 0 <= i < |password| && Text.IsUpper(password[i])
    ensures req.lowercase <==> exists i :: 0 <= i < |password| && Text.IsLower(password[i])
    ensures req.number <==> exists i :: 0 <= i < |password| && Text.IsDigit(password[i])
  {
    Requirements(|password| >= 8, Text.HasUpper(password), Text.HasLower(password), Text.HasDigit(password))
  }

  /** `Object.values(requirements).every(req => req)` */
  predicate AllMet(req: Requirements) {
    req.length && req.uppercase && req.lowercase && req.number
  }

  /** `isPasswordValid`: all four requirements hold */
  function IsPasswordValid(password: string): (ok: bool)
    ensures ok <==> |password| >= 8 && Text.HasUpper(password) && Text.HasLower(password) && Text.HasDigit(password)
  {
    AllMet(ValidatePassword(password))
  }

  const MismatchMessage := "New passwords do not match"
  const WeakMessage := "Password does not meet all requirements"
  const RejectedMessage := "Failed to change password"
  const PasswordFallback := "Failed to change password. Please try again."
  const PasswordChanged := "Password changed successfully!"

  /** the error the password form reports before calling the server, "" when it calls it */
  function PasswordFormError(newPassword: string, confirmPassword: string): (e: string)
    ensures newPassword != confirmPassword ==> e == MismatchMessage
    ensures newPassword == confirmPassword && !IsPasswordValid(newPassword) ==> e == WeakMessage
    ensures e == "" <==> newPassword == confirmPassword && IsPasswordValid(newPassword)
  {
    if newPassword != confirmPassword then MismatchMessage
    else if !IsPasswordValid(newPassword) then WeakMessage
    else ""
  }

  // ---------------------------------------------------------------------------------------------
  // The profile

  datatype ProfileForm = ProfileForm(name: string, email: string, phone: string, department: string)

  /** `{ ...userData, ...profileForm }` */
  function MergeProfile(user: map<string, Json>, form: ProfileForm): (r: map<string, Json>)
    ensures r.Keys == user.Keys + {"name", "email", "phone", "department"}
    ensures r["name"] == JString(form.name) && r["email"] == JString(form.email)
    ensures r["phone"] == JString(form.phone) && r["department"] == JString(form.department)
    ensures forall k :: k in user && k !in {"name", "email", "phone", "department"} ==> r[k] == user[k]
  {
    user["name" := JString(form.name)]["email" := JString(form.email)]
        ["phone" := JString(form.phone)]["department" := JString(form.department)]
  }

  /** how the profile request ended: success, a refusal with the server's message, or a throw */
  datatype ProfileOutcome = Saved | Refused(serverMessage: string) | Failed(message: string)

  const ProfileRefused := "Failed to update profile"
  const ProfileFallback := "Failed to update profile. Please try again."
  const ProfileSaved := "Profile updated successfully!"

  /** the page's state: the two forms, the messages, the in-flight flag and the stored user */
  class SecuritySettings {
    var currentPassword: string
    var newPassword: string
    var confirmPassword: string
    var profile: ProfileForm
    var successMessage: string
    var errorMessage: string
    var isSubmitting: bool
    var storedUser: map<string, Json>
    var currentUser: map<string, Json>

    constructor(storedUser: map<string, Json>, profile: ProfileForm)
      ensures this.storedUser == storedUser && this.profile == profile
      ensures currentPassword == "" && newPassword == "" && confirmPassword == ""
      ensures successMessage == "" && errorMessage == "" && !isSubmitting
      ensures currentUser == storedUser
    {
      this.storedUser := storedUser;
      this.profile := profile;
      currentPassword, newPassword, confirmPassword := "", "", "";
      successMessage, errorMessage := "", "";
      isSubmitting := false;
      currentUser := storedUser;
    }

    /** the submit button's `disabled` */
    function SubmitDisabled(): (disabled: bool)
      reads this
      ensures isSubmitting ==> disabled
      ensures !disabled <==> !isSubmitting && |newPassword| >= 8
                             && Text.HasUpper(newPassword) && Text.HasLower(newPassword) && Text.HasDigit(newPassword)
    {
      isSubmitting || !IsPasswordValid(newPassword)
    }

    /**
     * `handlePasswordSubmit` up to the `await`: both messages are cleared, a mismatch is reported
     * before a weak password, and the server is called only when both checks pass.
     */
    method BeginPasswordSubmit() returns (calls: bool)
      modifies this
      ensures calls <==> PasswordFormError(newPassword, confirmPassword) == ""
      ensures errorMessage == PasswordFormError(newPassword, confirmPassword) && successMessage == ""
      ensures isSubmitting == (calls || old(isSubmitting))
      ensures currentPassword == old(currentPassword) && newPassword == old(newPassword)
      ensures confirmPassword == old(confirmPassword) && profile == old(profile)
      ensures storedUser == old(storedUser) && currentUser == old(currentUser)
    {
      errorMessage := "";
      successMessage := "";
      if newPassword != confirmPassword {
        errorMessage := MismatchMessage;
        return false;
      }
      if !IsPasswordValid(newPassword) {
        errorMessage := WeakMessage;
        return false;
      }
      isSubmitting := true;
      return true;
    }

    /**
     * `handlePasswordSubmit` after `changePassword`: on a truthy status the three password fields
     * are emptied; a falsy status or a throw sets the error and keeps the fields.
     */
    method FinishPasswordSubmit(outcome: StatusOutcome)
      modifies this
      ensures !isSubmitting
      ensures outcome == Returned(true) ==>
                successMessage == PasswordChanged && errorMessage == old(errorMessage)
                && currentPassword == "" && newPassword == "" && confirmPassword == ""
      ensures outcome != Returned(true) ==>
                successMessage == old(successMessage)
                && currentPassword == old(currentPassword) && newPassword == old(newPassword)
                && confirmPassword == old(confirmPassword)
      ensures outcome == Returned(false) ==> errorMessage == RejectedMessage
      ensures outcome.Threw? ==> errorMessage == MessageOr(outcome.message, PasswordFallback)
      ensures profile == old(profile) && storedUser == old(storedUser) && currentUser == old(currentUser)
    {
      match outcome {
        case Returned(status) =>
          if status {
            successMessage := PasswordChanged;
            currentPassword, newPassword, confirmPassword := "", "", "";
          } else {
            errorMessage := MessageOr(RejectedMessage, PasswordFallback);
          }
        case Threw(message) =>
          errorMessage := MessageOr(message, PasswordFallback);
      }
      isSubmitting := false;
    }

    /** `handleProfileSubmit` up to the `await` */
    method BeginProfileSubmit()
      modifies this
      ensures errorMessage == "" && successMessage == "" && isSubmitting
      ensures currentPassword == old(currentPassword) && newPassword == old(newPassword)
      ensures confirmPassword == old(confirmPassword) && profile == old(profile)
      ensures storedUser == old(storedUser) && currentUser == old(currentUser)
    {
      errorMessage := "";
      successMessage := "";
      isSubmitting := true;
    }

    /**
     * `handleProfileSubmit` after the request: on success the profile is merged into the stored
     * user, which also becomes the page's current user; otherwise only the error is set.
     */
    method FinishProfileSubmit(outcome: ProfileOutcome)
      modifies this
      ensures !isSubmitting
      ensures outcome == Saved ==>
                storedUser == MergeProfile(old(storedUser), profile) && currentUser == storedUser
                && successMessage == ProfileSaved && errorMessage == old(errorMessage)
      ensures outcome != Saved ==>
                storedUser == old(storedUser) && currentUser == old(currentUser)
                && successMessage == old(successMessage)
      ensures outcome.Refused? ==> errorMessage == MessageOr(outcome.serverMessage, ProfileRefused)
      ensures outcome.Failed? ==> errorMessage == MessageOr(outcome.message, ProfileFallback)
      ensures currentPassword == old(currentPassword) && newPassword == old(newPassword)
      ensures confirmPassword == old(confirmPassword) && profile == old(profile)
    {
      match outcome {
        case Saved =>
          var newUserData := MergeProfile(storedUser, profile);
          storedUser := newUserData;
          currentUser := newUserData;
          successMessage := ProfileSaved;
        case Refused(serverMessage) =>
          errorMessage := MessageOr(MessageOr(serverMessage, ProfileRefused), ProfileFallback);
        case Failed(message) =>
          errorMessage := MessageOr(message, ProfileFallback);
      }
      isSubmitting := false;
    }
  }
}
