/** The incident report form (`client/src/pages/ReportIncident.tsx`): the
    category buttons, the submit guards, the request and what a successful
    submit clears, and the character counter. */
module ReportIncident {
  import opened Wrappers
  import opened Records
  import Text
  import Replies
  import ReportCard
  import ImageUpload

  /** `categoryMap`: the button's category to the issue type the server
      stores. */
  function CategoryMap(c: Category): (issueType: string)
    ensures issueType in ReportCard.IssueTypes
  {
    match c
    case Security => "Security"
    case Infrastructure => "Infrastructure"
    case Water => "Water Quality"
    case Food => "Food Safety"
    case Hygiene => "Hygiene"
  }

  /** Different buttons choose different issue types, each of which has its
      own badge on a report card, and the form's initial issue type is the
      Security button's. */
  lemma CategoryMapSpec(c: Category, d: Category)
    ensures CategoryMap(c) == CategoryMap(d) ==> c == d
    ensures ReportCard.IssueBadgeClass(CategoryMap(c)) != "badge-default"
    ensures CategoryMap(Security) == DefaultIssueType
  {
  }

  const DefaultIssueType: string := "Security"
  const MaxDescription: int := 2000

  /** The colour of the `n/2000 characters` counter. */
  function CounterColor(length: int): (color: string)
    ensures color == "text-red-600 font-bold" <==> length > 2000
    ensures color == "text-yellow-600" <==> 1800 < length <= 2000
    ensures color == "text-gray-400" <==> length <= 1800
  {
    if length > 1800 then (if length > 2000 then "text-red-600 font-bold" else "text-yellow-600")
    else "text-gray-400"
  }

  /** The first guard of `handleSubmit`: a name must be typed (white space
      counts) and the description must have something besides white space. */
  function FormComplete(accommodationName: string, description: string): (ok: bool)
    ensures ok <==> accommodationName != "" && !Text.AllWhitespace(description)
  {
    Text.TrimBlank(description);
    !(accommodationName == "" || Text.Trim(description) == "")
  }

  datatype ReportRequest = ReportRequest(accommodationName: string, issueType: string, description: string,
                                         images: seq<ImageUpload.Image>)

  /** How a submit ends: stopped by the form guard, sent to the login page, or
      sent to the server (with the alert it then raises, if any). */
  datatype SubmitOutcome = Blocked(alert: string) | LoginFirst(alert: string, navigateTo: string)
                         | Sent(request: ReportRequest, failureAlert: Option<string>)

  const FillAllFields: string := "Please fill in all fields"
  const LoginFirstAlert: string := "Please login first"
  const SubmitFailed: string := "Failed to submit report"
  const SubmitError: string := "Error submitting report"

  class ReportForm {
    var accommodationName: string
    var issueType: string
    var description: string
    var uploadedImages: seq<ImageUpload.Image>
    var isSubmitting: bool
    var submitSuccess: bool

    constructor()
      ensures accommodationName == "" && issueType == DefaultIssueType && description == ""
      ensures uploadedImages == [] && !isSubmitting && !submitSuccess
    {
      accommodationName := "";
      issueType := DefaultIssueType;
      description := "";
      uploadedImages := [];
      isSubmitting := false;
      submitSuccess := false;
    }

    /** A category button. */
    method SelectCategory(c: Category)
      modifies this
      ensures issueType == CategoryMap(c)
      ensures accommodationName == old(accommodationName) && description == old(description)
      ensures uploadedImages == old(uploadedImages)
      ensures isSubmitting == old(isSubmitting) && submitSuccess == old(submitSuccess)
    {
      issueType := CategoryMap(c);
    }

    /** `handleSubmit`, with the stored token and the server's reply as
        inputs.  An incomplete form or a missing token stops it before any
        request; otherwise the form and the images are sent, and a success
        marks the form submitted and clears the images. */
    method HandleSubmit(token: Option<string>, reply: Replies.ApiReply) returns (outcome: SubmitOutcome)
      modifies this
      ensures !FormComplete(old(accommodationName), old(description)) ==>
                outcome == Blocked(FillAllFields)
      ensures FormComplete(old(accommodationName), old(description)) && (token.None? || token == Some("")) ==>
                outcome == LoginFirst(LoginFirstAlert, "/login")
      ensures !outcome.Sent? ==>
                uploadedImages == old(uploadedImages) && isSubmitting == old(isSubmitting) &&
                submitSuccess == old(submitSuccess)
      ensures outcome.Sent? <==> FormComplete(old(accommodationName), old(description)) && token.Some? && token.value != ""
      ensures outcome.Sent? ==>
                outcome.request == ReportRequest(old(accommodationName), old(issueType), old(description), old(uploadedImages)) &&
                !isSubmitting
      ensures outcome.Sent? && reply.Succeeded() ==>
                outcome.failureAlert.None? && submitSuccess && uploadedImages == []
      ensures outcome.Sent? && !reply.Succeeded() ==>
                outcome.failureAlert == Some(if reply.Thrown? then SubmitError else Replies.OrElse(reply.message, SubmitFailed)) &&
                submitSuccess == old(submitSuccess) && uploadedImages == old(uploadedImages)
      ensures accommodationName == old(accommodationName) && issueType == old(issueType) &&
              description == old(description)
    {
      if accommodationName == "" || Text.Trim(description) == "" {
        return Blocked(FillAllFields);
      }
      if token.None? || token.value == "" {
        return LoginFirst(LoginFirstAlert, "/login");
      }
      isSubmitting := true;
      var request := ReportRequest(accommodationName, issueType, description, uploadedImages);
      match reply {
        case Answered(success, message) =>
          if success {
            submitSuccess := true;
            uploadedImages := [];
            outcome := Sent(request, None);
          } else {
            outcome := Sent(request, Some(Replies.OrElse(message, SubmitFailed)));
          }
        case Thrown =>
          outcome := Sent(request, Some(SubmitError));
      }
      isSubmitting := false;
    }
  }
}
