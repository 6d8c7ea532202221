/** The e-mail verification page (`client/src/pages/VerifyEmail.tsx`): a
    six-digit code checks the address; a new code may be asked for once the
    60-second countdown has run out. */
module VerifyEmail {
  import opened Wrappers
  import Text
  import Replies
  import FormRules

  datatype VerifyRequest = VerifyRequest(email: string, otp: string)

  const NewCodeSent: string := "New OTP sent to your email!"
  const ConnectionError: string := "Error connecting to server"

  class VerifyEmailPage {
    var email: string
    var otp: string
    var loading: bool
    var resendLoading: bool
    var message: string
    var error: string
    var countdown: nat

    /** The page opens with the address handed over by the sign-up page,
        if any. */
    constructor(emailFromState: Option<string>)
      ensures email == Replies.OrElse(emailFromState, "") && otp == ""
      ensures !loading && !resendLoading && message == "" && error == "" && countdown == 0
    {
      email := Replies.OrElse(emailFromState, "");
      otp := "";
      loading := false;
      resendLoading := false;
      message := "";
      error := "";
      countdown := 0;
    }

    /** Typing in the code field keeps the first six digits. */
    method TypeOtp(input: string)
      modifies this
      ensures otp == FormRules.SanitizeOtp(input)
      ensures email == old(email) && countdown == old(countdown) && loading == old(loading)
      ensures resendLoading == old(resendLoading) && error == old(error) && message == old(message)
    {
      otp := FormRules.SanitizeOtp(input);
    }

    /** One second of the countdown effect. */
    method Tick()
      modifies this
      ensures countdown == FormRules.Tick(old(countdown))
      ensures email == old(email) && otp == old(otp) && loading == old(loading)
      ensures resendLoading == old(resendLoading) && error == old(error) && message == old(message)
    {
      countdown := FormRules.Tick(countdown);
    }

    /** The Verify button. */
    function VerifyEnabled(): (enabled: bool)
      reads this
      ensures enabled <==> !loading && |otp| == FormRules.OtpLength
    {
      FormRules.CodeSubmitEnabled(loading, otp)
    }

    /** `handleVerify`: the trimmed address and code are sent; success shows
        the server's message, anything else an error. */
    method HandleVerify(reply: Replies.ApiReply) returns (request: VerifyRequest)
      modifies this
      ensures request == VerifyRequest(Text.Trim(old(email)), Text.Trim(old(otp)))
      ensures !loading
      ensures reply.Succeeded() ==> message == Replies.ShownText(reply.message) && error == ""
      ensures !reply.Succeeded() ==>
                message == "" && error == (if reply.Thrown? then ConnectionError else Replies.ShownText(reply.message))
      ensures email == old(email) && otp == old(otp) && countdown == old(countdown)
      ensures resendLoading == old(resendLoading)
    {
      request := VerifyRequest(Text.Trim(email), Text.Trim(otp));
      error := "";
      message := "";
      loading := true;
      match reply {
        case Answered(success, m) =>
          if success {
            message := Replies.ShownText(m);
          } else {
            error := Replies.ShownText(m);
          }
        case Thrown =>
          error := ConnectionError;
      }
      loading := false;
    }

    /** `handleResend`: nothing happens while the countdown runs or when the
        address is blank; otherwise the trimmed address is sent and success
        restarts the countdown. */
    method HandleResend(reply: Replies.ApiReply) returns (sentEmail: Option<string>)
      modifies this
      ensures sentEmail.None? <==> old(countdown) > 0 || Text.AllWhitespace(old(email))
      ensures sentEmail.None? ==>
                error == old(error) && message == old(message) && countdown == old(countdown) &&
                resendLoading == old(resendLoading)
      ensures sentEmail.Some? ==> sentEmail.value == Text.Trim(old(email)) && !resendLoading
      ensures sentEmail.Some? && reply.Succeeded() ==>
                message == NewCodeSent && error == "" && countdown == FormRules.ResendDelay
      ensures sentEmail.Some? && !reply.Succeeded() ==>
                message == "" && countdown == 0 &&
                error == (if reply.Thrown? then ConnectionError else Replies.ShownText(reply.message))
      ensures email == old(email) && otp == old(otp) && loading == old(loading)
    {
      var trimmed := Text.Trim(email);
      Text.TrimBlank(email);
      if countdown > 0 || trimmed == "" {
        return None;
      }
      error := "";
      message := "";
      resendLoading := true;
      sentEmail := Some(trimmed);
      match reply {
        case Answered(success, m) =>
          if success {
            message := NewCodeSent;
            countdown := FormRules.ResendDelay;
          } else {
            error := Replies.ShownText(m);
          }
        case Thrown =>
          error := ConnectionError;
      }
      resendLoading := false;
    }
  }
}
