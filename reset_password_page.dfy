/** client/pages/admin/ResetPassword.tsx: the new-password form, the request it sends and
    what it does with the answer. */
module ResetPasswordPage {
  import opened Wrappers
  import opened AdminRoutes

  datatype ResetField = NewPassword | ConfirmPassword | General

  datatype ResetForm = ResetForm(newPassword: string, confirmPassword: string)

  /** The request body: the new password and the address the verify step stored. */
  datatype ResetRequest = ResetRequest(newPassword: string, email: string)

  /** The localStorage key holding the address the codes were sent to. */
  const ResetEmailKey := "resetEmail"

  /** `handleSubmit` up to the request: the errors are collected field by field, and the
      request is sent only when there are none. */
  method HandleSubmit(form: ResetForm, resetEmail: string)
    returns (errors: map<ResetField, string>, request: Option<ResetRequest>)
    ensures NewPassword in errors <==> |form.newPassword| < 6
    ensures NewPassword in errors ==>
              errors[NewPassword] == if form.newPassword == "" then "Password is required"
                                     else "Password must be at least 6 characters"
    ensures ConfirmPassword in errors <==> form.confirmPassword == "" || form.newPassword != form.confirmPassword
    ensures ConfirmPassword in errors ==>
              errors[ConfirmPassword] == if form.confirmPassword == "" then "Please confirm your password"
                                         else "Passwords do not match"
    ensures General !in errors
    ensures request.Some? <==> |errors| == 0
    ensures request.Some? ==> request.value == ResetRequest(form.newPassword, resetEmail)
    ensures request.Some? ==> AcceptablePassword(Some(request.value.newPassword))
  {
    errors := map[];
    if form.newPassword == "" {
      errors := errors[NewPassword := "Password is required"];
    } else if |form.newPassword| < 6 {
      errors := errors[NewPassword := "Password must be at least 6 characters"];
    }
    if form.confirmPassword == "" {
      errors := errors[ConfirmPassword := "Please confirm your password"];
    } else if form.newPassword != form.confirmPassword {
      errors := errors[ConfirmPassword := "Passwords do not match"];
    }
    if |errors| > 0 {
      return errors, None;
    }
    assert errors.Keys == {};
    request := Some(ResetRequest(form.newPassword, resetEmail));
  }

  datatype ResetOutcome = ResetOutcome(
    storage: map<string, string>, submitted: bool, errors: map<ResetField, string>)

  /** The page after the server's answer: success forgets the stored address and keeps the
      rest of the storage; a refusal shows the server's error and keeps the storage. */
  function AfterResetResponse(storage: map<string, string>, ok: bool, serverError: Option<string>): (r: ResetOutcome)
    ensures ok ==> r.submitted && ResetEmailKey !in r.storage && r.errors == map[]
    ensures ok ==> forall key :: key in storage && key != ResetEmailKey ==> key in r.storage && r.storage[key] == storage[key]
    ensures ok ==> r.storage.Keys <= storage.Keys
    ensures !ok ==> !r.submitted && r.storage == storage &&
                    r.errors == map[General := if Truthy(serverError) then serverError.value else "Failed to reset password"]
  {
    if ok then ResetOutcome(storage - {ResetEmailKey}, true, map[])
    else ResetOutcome(storage, false, map[General := OrElse(serverError, "Failed to reset password")])
  }
}
