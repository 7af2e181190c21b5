/**
 * The client side of the contact form: a hook holding a status and a message
 * that a submission moves from `loading` to `success` or `error`.
 */
module UseContactForm {
  import opened Wrappers

  datatype Status = Idle | Loading | Succeeded | Failed

  /** The error body of a failed response: not JSON, or an object whose `error` field is a string or is absent. */
  datatype ErrorBody = Unreadable | ErrorField(error: Option<string>)

  /** What the `fetch` to the contact API gave: it threw, or a response (ok or not, with its body). */
  datatype FetchResult = FetchThrew | Responded(ok: bool, body: ErrorBody)

  /** Where a submission settles: the status, the message, and whether the form is reset. */
  datatype Settled = Settled(status: Status, message: string, resetsForm: bool)

  const DefaultSuccess := "Your message has been sent successfully. Thank you for contacting us!"
  const DefaultError := "An error occurred while sending your message."
  const UnexpectedError := "An unexpected error occurred. Please try again later."

  /** `a || b` for a string `a` that may be absent. */
  function OrElse(a: Option<string>, b: string): string {
    if a.Some? && a.value != "" then a.value else b
  }

  /** The state a submission ends in, given the `fetch` result. */
  function Settle(successMessage: Option<string>, result: FetchResult): (r: Settled)
    ensures r.status != Loading && r.status != Idle
    ensures r.message != ""
    ensures r.status == Succeeded <==> result.Responded? && result.ok
    ensures r.resetsForm <==> r.status == Succeeded
    ensures r.status == Succeeded ==> r.message == OrElse(successMessage, DefaultSuccess)
    ensures result.FetchThrew? ==> r.message == UnexpectedError
  {
    match result
    case FetchThrew => Settled(Failed, UnexpectedError, false)
    case Responded(ok, body) =>
      if ok then Settled(Succeeded, OrElse(successMessage, DefaultSuccess), true)
      else match body
        case Unreadable => Settled(Failed, UnexpectedError, false)
        case ErrorField(error) => Settled(Failed, OrElse(error, DefaultError), false)
  }

  /** A failed response shows the server's `error` text when it has one, the default text otherwise. */
  lemma FailureShowsServerError(successMessage: Option<string>, error: Option<string>)
    ensures var r := Settle(successMessage, Responded(false, ErrorField(error)));
      r.status == Failed && !r.resetsForm
      && (error.Some? && error.value != "" ==> r.message == error.value)
      && (error.None? || error.value == "" ==> r.message == DefaultError)
  {
  }

  /** The hook's state cells, and how often it has asked the form to reset. */
  class ContactFormHook {
    const successMessage: Option<string>
    var status: Status
    var message: string
    var resets: nat

    constructor (successMessage: Option<string>)
      ensures this.successMessage == successMessage
      ensures status == Idle && message == "" && resets == 0
    {
      this.successMessage := successMessage;
      status := Idle;
      message := "";
      resets := 0;
    }

    /** `isSubmitting`. */
    predicate IsSubmitting()
      reads this
    {
      status == Loading
    }

    /** The start of `submit`: loading, with the message cleared. */
    method Start()
      modifies this
      ensures status == Loading && message == "" && resets == old(resets)
      ensures IsSubmitting()
    {
      status := Loading;
      message := "";
    }

    /** The end of `submit`, once `fetch` has settled. */
    method Finish(result: FetchResult)
      modifies this
      ensures var s := Settle(successMessage, result);
        status == s.status && message == s.message
        && resets == old(resets) + (if s.resetsForm then 1 else 0)
      ensures !IsSubmitting()
    {
      match result {
        case FetchThrew =>
          status := Failed;
          message := UnexpectedError;
        case Responded(ok, body) =>
          if ok {
            status := Succeeded;
            message := OrElse(successMessage, DefaultSuccess);
            resets := resets + 1;
          } else if body.Unreadable? {
            status := Failed;
            message := UnexpectedError;
          } else {
            status := Failed;
            message := OrElse(body.error, DefaultError);
          }
      }
    }

    /** `submit`: start, then settle on the `fetch` result. */
    method Submit(result: FetchResult)
      modifies this
      ensures var s := Settle(successMessage, result);
        status == s.status && message == s.message
        && resets == old(resets) + (if s.resetsForm then 1 else 0)
    {
      Start();
      Finish(result);
    }
  }
}
