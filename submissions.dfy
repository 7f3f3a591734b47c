/**
 * How an awaited call of a submit handler ends, and the message the handler's `catch` shows.
 * Each submit handler is split in two steps: what it does up to the `await`, and what it does
 * once the call has returned a status or thrown.
 */
module Submissions {

  /** the call returned a status (truthy or not), or threw an error carrying a message */
  datatype StatusOutcome = Returned(status: bool) | Threw(message: string)

  /** `error.message || fallback` */
  function MessageOr(message: string, fallback: string): (r: string)
    ensures message != "" ==> r == message
    ensures message == "" ==> r == fallback
  {
    if message == "" then fallback else message
  }
}
