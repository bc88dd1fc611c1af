/** client/pages/admin/Settings.tsx: the change-password form's validation, where server
    errors are shown, and the editing of the contact settings. */
module SettingsPage {
  import opened Wrappers
  import opened Text
  import opened Records
  import opened AdminRoutes

  datatype PasswordField = CurrentPassword | NewPassword | ConfirmPassword | General

  datatype PasswordForm = PasswordForm(currentPassword: string, newPassword: string, confirmPassword: string)

  datatype ChangePasswordRequest = ChangePasswordRequest(currentPassword: string, newPassword: string)

  /** `handleChangePassword` up to the request: the errors are collected field by field,
      and the request is sent only when there are none. */
  method HandleChangePassword(form: PasswordForm)
    returns (errors: map<PasswordField, string>, request: Option<ChangePasswordRequest>)
    ensures CurrentPassword in errors <==> form.currentPassword == ""
    ensures CurrentPassword in errors ==> errors[CurrentPassword] == "Current password is required"
    ensures NewPassword in errors <==> |form.newPassword| < 6
    ensures NewPassword in errors ==>
              errors[NewPassword] == if form.newPassword == "" then "New password is required"
                                     else "Password must be at least 6 characters"
    ensures ConfirmPassword in errors <==> form.confirmPassword == "" || form.newPassword != form.confirmPassword
    ensures ConfirmPassword in errors ==>
              errors[ConfirmPassword] == if form.confirmPassword == "" then "Please confirm your new password"
                                         else "Passwords do not match"
    ensures General !in errors
    ensures request.Some? <==> |errors| == 0
    ensures request.Some? ==> request.value == ChangePasswordRequest(form.currentPassword, form.newPassword)
    ensures request.Some? ==> AcceptablePassword(Some(request.value.newPassword)) && form.newPassword == form.confirmPassword
  {
    errors := map[];
    if form.currentPassword == "" {
      errors := errors[CurrentPassword := "Current password is required"];
    }
    if form.newPassword == "" {
      errors := errors[NewPassword := "New password is required"];
    } else if |form.newPassword| < 6 {
      errors := errors[NewPassword := "Password must be at least 6 characters"];
    }
    if form.confirmPassword == "" {
      errors := errors[ConfirmPassword := "Please confirm your new password"];
    } else if form.newPassword != form.confirmPassword {
      errors := errors[ConfirmPassword := "Passwords do not match"];
    }
    if |errors| > 0 {
      return errors, None;
    }
    assert errors.Keys == {};
    request := Some(ChangePasswordRequest(form.currentPassword, form.newPassword));
  }

  /** Where a refused change is reported: an error mentioning "incorrect" goes to the
      current-password field, anything else to the general message. */
  function ServerErrorFields(serverError: Option<string>): (r: map<PasswordField, string>)
    ensures |r| == 1
    ensures CurrentPassword in r <==> serverError.Some? && Includes(serverError.value, "incorrect")
    ensures CurrentPassword in r ==> r[CurrentPassword] == serverError.value
    ensures CurrentPassword !in r ==> General in r
    ensures General in r ==> r[General] == OrElse(serverError, "Failed to change password")
  {
    if serverError.Some? && Includes(serverError.value, "incorrect") then
      map[CurrentPassword := serverError.value]
    else
      map[General := OrElse(serverError, "Failed to change password")]
  }

  /** The two refusals `changeAdminPassword` can send land where the page intends. */
  lemma ServerRefusalsLandOnTheirFields()
    ensures ServerErrorFields(Some("Current password is incorrect")) ==
              map[CurrentPassword := "Current password is incorrect"]
    ensures ServerErrorFields(Some("Password must be at least 6 characters")) ==
              map[General := "Password must be at least 6 characters"]
    ensures ServerErrorFields(None) == map[General := "Failed to change password"]
  {
    assert OccursAt("Current password is incorrect", "incorrect", 20);
    LengthRefusalLacksIncorrect();
  }

  /** The length refusal contains no 'i', so it never mentions "incorrect". */
  lemma LengthRefusalLacksIncorrect()
    ensures !Includes("Password must be at least 6 characters", "incorrect")
  {
    var s := "Password must be at least 6 characters";
    assert forall k :: 0 <= k < |s| ==> s[k] != 'i' by {
      forall k | 0 <= k < |s| ensures s[k] != 'i' {
        assert s[k] in s;
      }
    }
    forall i | 0 <= i <= |s| - 9 ensures !OccursAt(s, "incorrect", i) {
      assert s[i..i + 9][0] == s[i];
    }
  }

  /** The settings page's form state. */
  datatype SettingsForm = SettingsForm(settings: AdminSettings, hasChanges: bool)

  datatype SettingChange = SetPhone(phone: string) | SetAddress(address: string) | SetEmail(email: string)
                         | SetMaintenanceMode(on: bool)

  /** `handleFieldChange`: the named setting takes the value, the others stay, and the
      form is marked changed. */
  function FieldChange(form: SettingsForm, change: SettingChange): (r: SettingsForm)
    ensures r.hasChanges
    ensures r.settings.phone == (if change.SetPhone? then change.phone else form.settings.phone)
    ensures r.settings.address == (if change.SetAddress? then change.address else form.settings.address)
    ensures r.settings.email == (if change.SetEmail? then change.email else form.settings.email)
    ensures r.settings.maintenanceMode ==
              (if change.SetMaintenanceMode? then change.on else form.settings.maintenanceMode)
  {
    var s := form.settings;
    var updated := match change
      case SetPhone(v) => s.(phone := v)
      case SetAddress(v) => s.(address := v)
      case SetEmail(v) => s.(email := v)
      case SetMaintenanceMode(v) => s.(maintenanceMode := v);
    SettingsForm(updated, true)
  }
}
