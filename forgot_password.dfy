/** The password-reset page (`client/src/pages/ForgotPassword.tsx`): ask for a
    code, then reset with it; a resend is held back by a 60-second
    countdown. */
module ForgotPassword {
  import opened Wrappers
  import Text
  import Replies
  import FormRules

  datatype Step = EmailStep | OtpStep | SuccessStep

  datatype ResetRequest = ResetRequest(email: string, otp: string, newPassword: string)

  const OtpSent: string := "OTP sent to your email!"
  const NewOtpSent: string := "New OTP sent!"
  const ConnectionError: string := "Error connecting to server"
  const PasswordsDiffer: string := "Passwords do not match"
  const PasswordTooShort: string := "Password must be at least 6 characters"

  class ForgotPasswordPage {
    var step: Step
    var email: string
    var otp: string
    var newPassword: string
    var confirmPassword: string
    var loading: bool
    var error: string
    var message: string
    var countdown: nat

    constructor()
      ensures step == EmailStep && email == "" && otp == "" && newPassword == "" && confirmPassword == ""
      ensures !loading && error == "" && message == "" && countdown == 0
    {
      step := EmailStep;
      email := "";
      otp := "";
      newPassword := "";
      confirmPassword := "";
      loading := false;
      error := "";
      message := "";
      countdown := 0;
    }

    /** Typing in the code field keeps the first six digits. */
    method TypeOtp(input: string)
      modifies this
      ensures otp == FormRules.SanitizeOtp(input)
      ensures step == old(step) && email == old(email) && countdown == old(countdown)
      ensures newPassword == old(newPassword) && confirmPassword == old(confirmPassword)
      ensures loading == old(loading) && error == old(error) && message == old(message)
    {
      otp := FormRules.SanitizeOtp(input);
    }

    /** One second of the countdown effect. */
    method Tick()
      modifies this
      ensures countdown == FormRules.Tick(old(countdown))
      ensures step == old(step) && email == old(email) && otp == old(otp)
      ensures newPassword == old(newPassword) && confirmPassword == old(confirmPassword)
      ensures loading == old(loading) && error == old(error) && message == old(message)
    {
      countdown := FormRules.Tick(countdown);
    }

    /** The Reset button is enabled only for a six-character code while no
        request is in flight. */
    function ResetEnabled(): (enabled: bool)
      reads this
      ensures enabled <==> !loading && |otp| == FormRules.OtpLength
    {
      FormRules.CodeSubmitEnabled(loading, otp)
    }

    /** `handleSendOTP`: sends the trimmed e-mail; success moves to the code
        step and starts the countdown; a failure shows the error and keeps
        the step. */
    method HandleSendOtp(reply: Replies.ApiReply) returns (sentEmail: string)
      modifies this
      ensures sentEmail == Text.Trim(old(email))
      ensures !loading
      ensures reply.Succeeded() ==>
                message == OtpSent && error == "" && step == OtpStep && countdown == FormRules.ResendDelay
      ensures !reply.Succeeded() ==>
                message == "" && step == old(step) && countdown == old(countdown) &&
                error == (if reply.Thrown? then ConnectionError else Replies.ShownText(reply.message))
      ensures email == old(email) && otp == old(otp)
      ensures newPassword == old(newPassword) && confirmPassword == old(confirmPassword)
    {
      error := "";
      message := "";
      loading := true;
      sentEmail := Text.Trim(email);
      match reply {
        case Answered(success, m) =>
          if success {
            message := OtpSent;
            step := OtpStep;
            countdown := FormRules.ResendDelay;
          } else {
            error := Replies.ShownText(m);
          }
        case Thrown =>
          error := ConnectionError;
      }
      loading := false;
    }

    /** `handleResetPassword`: passwords that differ, then passwords that are
        too short, are refused before any request; otherwise the trimmed
        e-mail and code go with the new password, and success moves to the
        final step. */
    method HandleResetPassword(reply: Replies.ApiReply) returns (request: Option<ResetRequest>)
      modifies this
      ensures FormRules.CheckPasswords(old(newPassword), old(confirmPassword)) == FormRules.Mismatch ==>
                request.None? && error == PasswordsDiffer && message == "" && step == old(step) && loading == old(loading)
      ensures FormRules.CheckPasswords(old(newPassword), old(confirmPassword)) == FormRules.TooShort ==>
                request.None? && error == PasswordTooShort && message == "" && step == old(step) && loading == old(loading)
      ensures request.Some? <==> FormRules.CheckPasswords(old(newPassword), old(confirmPassword)) == FormRules.Acceptable
      ensures request.Some? ==>
                request.value == ResetRequest(Text.Trim(old(email)), Text.Trim(old(otp)), old(newPassword)) && !loading
      ensures request.Some? && reply.Succeeded() ==>
                step == SuccessStep && error == "" && message == Replies.ShownText(reply.message)
      ensures request.Some? && !reply.Succeeded() ==>
                step == old(step) && message == "" &&
                error == (if reply.Thrown? then ConnectionError else Replies.ShownText(reply.message))
      ensures countdown == old(countdown) && email == old(email) && otp == old(otp)
      ensures newPassword == old(newPassword) && confirmPassword == old(confirmPassword)
    {
      var verdict := FormRules.CheckPasswords(newPassword, confirmPassword);
      message := "";
      if verdict == FormRules.Mismatch {
        error := PasswordsDiffer;
        request := None;
      } else if verdict == FormRules.TooShort {
        error := PasswordTooShort;
        request := None;
      } else {
        request := Some(ResetRequest(Text.Trim(email), Text.Trim(otp), newPassword));
        ShowResetReply(reply);
      }
    }

    /** The reply to a reset request: success moves to the final step and
        shows the server's message, anything else shows an error. */
    method ShowResetReply(reply: Replies.ApiReply)
      modifies this
      ensures !loading
      ensures reply.Succeeded() ==> step == SuccessStep && error == "" && message == Replies.ShownText(reply.message)
      ensures !reply.Succeeded() ==>
                step == old(step) && message == "" &&
                error == (if reply.Thrown? then ConnectionError else Replies.ShownText(reply.message))
      ensures countdown == old(countdown) && email == old(email) && otp == old(otp)
      ensures newPassword == old(newPassword) && confirmPassword == old(confirmPassword)
    {
      error := "";
      message := "";
      loading := true;
      match reply {
        case Answered(success, m) =>
          if success {
            step := SuccessStep;
            message := Replies.ShownText(m);
          } else {
            error := Replies.ShownText(m);
          }
        case Thrown =>
          error := ConnectionError;
      }
      loading := false;
    }

    /** `handleResendOTP`: does nothing while the countdown runs; otherwise
        sends the trimmed e-mail again and, on success, restarts the
        countdown. */
    method HandleResendOtp(reply: Replies.ApiReply) returns (sentEmail: Option<string>)
      modifies this
      ensures old(countdown) > 0 ==>
                sentEmail.None? && error == old(error) && message == old(message) && countdown == old(countdown)
      ensures old(countdown) == 0 ==> sentEmail == Some(Text.Trim(old(email)))
      ensures old(countdown) == 0 && reply.Succeeded() ==>
                message == NewOtpSent && error == "" && countdown == FormRules.ResendDelay
      ensures old(countdown) == 0 && !reply.Succeeded() ==>
                message == "" && countdown == 0 &&
                error == (if reply.Thrown? then ConnectionError else Replies.ShownText(reply.message))
      ensures step == old(step) && loading == old(loading) && email == old(email) && otp == old(otp)
      ensures newPassword == old(newPassword) && confirmPassword == old(confirmPassword)
    {
      if countdown > 0 {
        return None;
      }
      error := "";
      message := "";
      sentEmail := Some(Text.Trim(email));
      match reply {
        case Answered(success, m) =>
          if success {
            message := NewOtpSent;
            countdown := FormRules.ResendDelay;
          } else {
            error := Replies.ShownText(m);
          }
        case Thrown =>
          error := ConnectionError;
      }
    }
  }
}
