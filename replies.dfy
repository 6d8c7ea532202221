/** The server answers the pages react to: a JSON body with `success` and an
    optional `message`, or an exception (network failure or a body that is
    not JSON). */
module Replies {
  import opened Wrappers

  datatype ApiReply = Answered(success: bool, message: Option<string>) | Thrown {
    predicate Succeeded() { Answered? && success }
  }

  /** `message || fallback`: the message when it is a non-empty string. */
  function OrElse(message: Option<string>, fallback: string): (s: string)
    ensures message.Some? && message.value != "" ==> s == message.value
    ensures message.None? || message == Some("") ==> s == fallback
  {
    if message.Some? && message.value != "" then message.value else fallback
  }

  /** What `alert(message)` shows: an absent message shows as `undefined`. */
  function AlertText(message: Option<string>): string {
    message.GetOr("undefined")
  }

  /** What `setError(message)` leaves shown: an absent message shows nothing,
      like the empty string. */
  function ShownText(message: Option<string>): string {
    message.GetOr("")
  }
}
