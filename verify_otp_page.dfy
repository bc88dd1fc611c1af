/** client/pages/admin/VerifyOTP.tsx: the code input box, the submit guard and the
    handling of a refused code. */
module VerifyOtpPage {
  import opened Wrappers
  import opened Lists
  import opened Text

  /** The number of digits a code has. */
  const CodeLength: nat := 6

  /** `value.replace(/\D/g, "").slice(0, 6)`. */
  function SanitizeOtpInput(raw: string): (r: string)
    ensures AllDigits(r)
    ensures |r| == if |Filter(raw, IsDigit)| < CodeLength then |Filter(raw, IsDigit)| else CodeLength
    ensures r == Filter(raw, IsDigit)[..|r|]
  {
    var digits := Filter(raw, IsDigit);
    if |digits| <= CodeLength then digits else digits[..CodeLength]
  }

  /** Retyping the sanitised text changes nothing. */
  lemma SanitizeIdempotent(raw: string)
    ensures SanitizeOtpInput(SanitizeOtpInput(raw)) == SanitizeOtpInput(raw)
  {
    var once := SanitizeOtpInput(raw);
    FilterKeepsAll(once, IsDigit);
  }

  /** A code the server issues passes through the input box unchanged. */
  lemma IssuedCodeSurvivesInput(code: nat)
    requires 100000 <= code <= 999999
    ensures SanitizeOtpInput(Decimal(code)) == Decimal(code)
    ensures SubmitOtp(Decimal(code), "").VerifyRequest?
  {
    SixDigitDecimal(code);
    FilterKeepsAll(Decimal(code), IsDigit);
  }

  datatype OtpSubmit = OtpRejected(error: string) | VerifyRequest(otpCode: string, email: string)

  /** `handleSubmit`'s guard: only a six-character code is sent, with the stored email. */
  function SubmitOtp(otp: string, resetEmail: string): (r: OtpSubmit)
    ensures r.VerifyRequest? <==> |otp| == CodeLength
    ensures r.VerifyRequest? ==> r.otpCode == otp && r.email == resetEmail
    ensures r.OtpRejected? ==> r.error == "Please enter a valid 6-digit code"
  {
    if otp == "" || |otp| != CodeLength then OtpRejected("Please enter a valid 6-digit code")
    else VerifyRequest(otp, resetEmail)
  }

  datatype OtpPageState = OtpPageState(otp: string, error: string, success: bool)

  /** The page after the server's answer: success is recorded, a refusal shows the
      server's error and empties the box. */
  function AfterVerifyResponse(state: OtpPageState, ok: bool, serverError: Option<string>): (r: OtpPageState)
    ensures ok ==> r.success && r.otp == state.otp
    ensures !ok ==> r.otp == "" && r.success == state.success &&
                    r.error == (if Truthy(serverError) then serverError.value else "Invalid verification code")
  {
    if ok then state.(success := true)
    else state.(error := OrElse(serverError, "Invalid verification code"), otp := "")
  }
}
