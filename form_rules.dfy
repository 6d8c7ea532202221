/** Input rules shared by the password and e-mail verification pages
    (`ForgotPassword.tsx`, `VerifyEmail.tsx`, `Profile.tsx`): the one-time
    code sanitiser, the password checks and the resend countdown. */
module FormRules {
  import opened Text
  import Seqs

  const OtpLength: nat := 6
  const MinPasswordLength: nat := 6
  const ResendDelay: nat := 60

  /** `value.replace(/\D/g, '').slice(0, 6)`: the first six digits typed. */
  function SanitizeOtp(input: string): (code: string)
    ensures AllDigits(code)
    ensures |code| == if |DigitsOnly(input)| <= OtpLength then |DigitsOnly(input)| else OtpLength
    ensures code == DigitsOnly(input)[..|code|]
  {
    Seqs.Take(DigitsOnly(input), OtpLength)
  }

  /** Sanitising a sanitised code changes nothing, and a code of six digits
      passes through whole. */
  lemma SanitizeOtpIdempotent(input: string)
    ensures SanitizeOtp(SanitizeOtp(input)) == SanitizeOtp(input)
  {
    DigitsOnlyOfDigits(SanitizeOtp(input));
  }

  lemma SanitizeOtpKeepsCode(code: string)
    requires AllDigits(code) && |code| <= OtpLength
    ensures SanitizeOtp(code) == code
  {
    DigitsOnlyOfDigits(code);
  }

  /** The submit button of a code form: enabled exactly when not loading and
      the code has six characters. */
  function CodeSubmitEnabled(loading: bool, otp: string): (enabled: bool)
    ensures enabled <==> !loading && |otp| == OtpLength
  {
    !(loading || |otp| != OtpLength)
  }

  /** A sanitised code enables the button only once six digits are typed. */
  lemma SanitizedCodeEnables(input: string)
    ensures CodeSubmitEnabled(false, SanitizeOtp(input)) <==> |DigitsOnly(input)| >= OtpLength
  {
  }

  /** The verdict of a new-password form. */
  datatype PasswordVerdict = Mismatch | TooShort | Acceptable

  /** Mismatch is checked first, then the length. */
  function CheckPasswords(newPassword: string, confirmPassword: string): (v: PasswordVerdict)
    ensures v == Mismatch <==> newPassword != confirmPassword
    ensures v == TooShort <==> newPassword == confirmPassword && |newPassword| < MinPasswordLength
    ensures v == Acceptable <==> newPassword == confirmPassword && |newPassword| >= MinPasswordLength
  {
    if newPassword != confirmPassword then Mismatch
    else if |newPassword| < MinPasswordLength then TooShort
    else Acceptable
  }

  /** One tick of the countdown effect: it counts down while positive and
      stops at zero. */
  function Tick(countdown: nat): nat {
    if countdown > 0 then countdown - 1 else countdown
  }

  function AfterTicks(countdown: nat, ticks: nat): nat {
    if ticks == 0 then countdown else Tick(AfterTicks(countdown, ticks - 1))
  }

  /** After `ticks` seconds the countdown is down by `ticks`, but never below
      zero; a resend blocked at 60 is allowed again after exactly 60 ticks. */
  lemma {:induction false} AfterTicksValue(countdown: nat, ticks: nat)
    ensures AfterTicks(countdown, ticks) == if ticks <= countdown then countdown - ticks else 0
  {
    if ticks > 0 {
      AfterTicksValue(countdown, ticks - 1);
    }
  }

  lemma ResendBlockedFor60(ticks: nat)
    ensures AfterTicks(ResendDelay, ticks) == 0 <==> ticks >= ResendDelay
  {
    AfterTicksValue(ResendDelay, ticks);
  }
}
