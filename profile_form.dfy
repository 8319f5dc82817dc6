/**
 * The two submit handlers of frontend/src/pages/Profile.jsx: the password form
 * is checked locally (matching confirmation, then minimum length) before the
 * service is called, and the banner message, the password fields, `editing`
 * and `loading` are updated in sequence. The account service is a parameter.
 */
module ProfileForm {
  import opened Common

  /** The banner: `type` is "", "success" or "error". */
  datatype Message = Message(kind: string, text: string)

  const NoMessage := Message("", "")

  /** The three password inputs. */
  datatype PasswordData = PasswordData(currentPassword: string, newPassword: string, confirmPassword: string)

  const EmptyPasswords := PasswordData("", "", "")

  /** The profile inputs sent by the profile form. */
  datatype ProfileData = ProfileData(name: string, email: string, phone: string, company: string, bio: string)

  /** What the password form sends to the service. */
  datatype PasswordChange = PasswordChange(currentPassword: string, newPassword: string)

  /** A service call resolves, or rejects with `error.message` ("" when it has none). */
  datatype Outcome = Resolved | Rejected(message: string)

  const MinPasswordLength: nat := 6
  const MismatchMessage: string := "Passwords do not match"
  const TooShortMessage: string := "Password must be at least 6 characters"
  const PasswordSuccess: string := "Password updated successfully"
  const PasswordFallback: string := "Failed to update password"
  const ProfileSuccess: string := "Profile updated successfully"
  const ProfileFallback: string := "Unable to update profile"

  /** The local check of the password form: a mismatch is reported before a short password. */
  function PasswordProblem(d: PasswordData): (r: Option<string>)
    ensures r.None? <==> d.newPassword == d.confirmPassword && |d.newPassword| >= MinPasswordLength
    ensures d.newPassword != d.confirmPassword ==> r == Some(MismatchMessage)
    ensures d.newPassword == d.confirmPassword && |d.newPassword| < MinPasswordLength ==> r == Some(TooShortMessage)
  {
    if d.newPassword != d.confirmPassword then Some(MismatchMessage)
    else if |d.newPassword| < MinPasswordLength then Some(TooShortMessage)
    else None
  }

  /** `error.message || fallback`. */
  function ErrorText(message: string, fallback: string): (r: string)
    ensures message != [] ==> r == message
    ensures message == [] ==> r == fallback
  {
    if message != [] then message else fallback
  }

  /** A short password that also differs from its confirmation is reported as a mismatch. */
  lemma MismatchReportedFirst(d: PasswordData)
    requires d.newPassword != d.confirmPassword && |d.newPassword| < MinPasswordLength
    ensures PasswordProblem(d) == Some(MismatchMessage)
  {
  }

  /** The form a successful change leaves behind is refused locally if submitted again. */
  lemma ResetFormRefused()
    ensures PasswordProblem(EmptyPasswords) == Some(TooShortMessage)
  {
  }

  class ProfilePage {
    var editing: bool
    var loading: bool
    var message: Message
    var profileData: ProfileData
    var passwordData: PasswordData

    constructor (profileData: ProfileData)
      ensures !editing && !loading && message == NoMessage
      ensures this.profileData == profileData && passwordData == EmptyPasswords
    {
      editing := false;
      loading := false;
      message := NoMessage;
      this.profileData := profileData;
      passwordData := EmptyPasswords;
    }

    /**
     * `handleProfileSubmit`: the profile inputs are sent; on success editing
     * ends with a success banner, on failure editing goes on with the error's
     * message or the fallback. Loading is off afterwards either way.
     */
    method HandleProfileSubmit(updateProfile: ProfileData -> Outcome) returns (sent: ProfileData)
      modifies this
      ensures sent == old(profileData)
      ensures profileData == old(profileData) && passwordData == old(passwordData) && !loading
      ensures updateProfile(sent).Resolved? ==> !editing && message == Message("success", ProfileSuccess)
      ensures updateProfile(sent).Rejected? ==>
        editing == old(editing) && message == Message("error", ErrorText(updateProfile(sent).message, ProfileFallback))
    {
      loading := true;
      message := NoMessage;
      sent := profileData;
      var outcome := updateProfile(sent);
      if outcome.Resolved? {
        editing := false;
        message := Message("success", ProfileSuccess);
      } else {
        message := Message("error", ErrorText(outcome.message, ProfileFallback));
      }
      loading := false;
    }

    /**
     * `handlePasswordSubmit`: the message is cleared; a local problem is
     * reported with no call and nothing else touched; otherwise the current and
     * new passwords are sent, a success resets all three fields, and a failure
     * keeps them with the error's message or the fallback.
     */
    method HandlePasswordSubmit(changePassword: PasswordChange -> Outcome) returns (sent: Option<PasswordChange>)
      modifies this
      ensures editing == old(editing) && profileData == old(profileData)
      ensures sent.None? <==> PasswordProblem(old(passwordData)).Some?
      ensures PasswordProblem(old(passwordData)).Some? ==>
        message == Message("error", PasswordProblem(old(passwordData)).value) &&
        passwordData == old(passwordData) && loading == old(loading)
      ensures sent.Some? ==>
        sent.value == PasswordChange(old(passwordData).currentPassword, old(passwordData).newPassword) && !loading
      ensures sent.Some? && changePassword(sent.value).Resolved? ==>
        passwordData == EmptyPasswords && message == Message("success", PasswordSuccess)
      ensures sent.Some? && changePassword(sent.value).Rejected? ==>
        passwordData == old(passwordData) &&
        message == Message("error", ErrorText(changePassword(sent.value).message, PasswordFallback))
    {
      message := NoMessage;
      if passwordData.newPassword != passwordData.confirmPassword {
        message := Message("error", MismatchMessage);
        return None;
      }
      if |passwordData.newPassword| < MinPasswordLength {
        message := Message("error", TooShortMessage);
        return None;
      }
      loading := true;
      var request := PasswordChange(passwordData.currentPassword, passwordData.newPassword);
      sent := Some(request);
      var outcome := changePassword(request);
      if outcome.Resolved? {
        passwordData := EmptyPasswords;
        message := Message("success", PasswordSuccess);
      } else {
        message := Message("error", ErrorText(outcome.message, PasswordFallback));
      }
      loading := false;
    }
  }
}
