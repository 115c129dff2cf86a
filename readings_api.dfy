/**
 * The API client's response interceptor: a successful response passes
 * through, and a failed request is turned into one error message chosen by
 * a fixed precedence (server error, not found, the body's message, the
 * transport's message, a generic fallback).
 */
module ReadingsApi {
  import opened Wrappers
  import opened Seqs

  const SERVER_ERROR_MESSAGE: string := "Server error. Please try again later."
  const NOT_FOUND_MESSAGE: string := "Resource not found."
  const UNEXPECTED_ERROR_MESSAGE: string := "An unexpected error occurred"

  /**
   * The `message` of an error body: missing (or `null`), a string, or the
   * list of strings the backend's validation sends.
   */
  datatype BodyMessage = NoMessage | MessageText(text: string) | MessageList(items: seq<string>)

  /** The part of an HTTP error response the interceptor looks at. */
  datatype ErrorResponse = ErrorResponse(status: int, message: BodyMessage)

  /** A failed request: the transport's own message and, when the server answered, its response. */
  datatype RequestFailure = RequestFailure(message: string, response: Option<ErrorResponse>)

  function Status(e: RequestFailure): Option<int>
  {
    if e.response.Some? then Some(e.response.value.status) else None
  }

  /** The body message is truthy: a non-empty string, or any list (an empty array is truthy too). */
  predicate HasBodyMessage(e: RequestFailure)
  {
    && e.response.Some?
    && match e.response.value.message
       case NoMessage => false
       case MessageText(t) => t != ""
       case MessageList(_) => true
  }

  /** `new Error(message)` turns a list into its elements joined by commas. */
  function BodyMessageText(m: BodyMessage): string
  {
    match m
    case NoMessage => ""
    case MessageText(t) => t
    case MessageList(items) => Join(items, ",")
  }

  /** The message of the error the interceptor throws for a failed request. */
  function ErrorMessage(e: RequestFailure): string
  {
    if Status(e) == Some(500) then SERVER_ERROR_MESSAGE
    else if Status(e) == Some(404) then NOT_FOUND_MESSAGE
    else if HasBodyMessage(e) then BodyMessageText(e.response.value.message)
    else if e.message != "" then e.message
    else UNEXPECTED_ERROR_MESSAGE
  }

  /** The interceptor: responses pass through unchanged, failures become their message. */
  function Intercept<T>(outcome: Result<T, RequestFailure>): (r: Result<T, string>)
    ensures outcome.Ok? <==> r.Ok?
    ensures outcome.Ok? ==> r.value == outcome.value
    ensures outcome.Err? ==> r.error == ErrorMessage(outcome.error)
  {
    match outcome
    case Ok(v) => Ok(v)
    case Err(e) => Err(ErrorMessage(e))
  }

  /**
   * The precedence: 500 and 404 win over any body, only then does the body's
   * message count, and the transport's message only when there is none.
   */
  lemma ErrorMessagePrecedence(e: RequestFailure)
    ensures Status(e) == Some(500) ==> ErrorMessage(e) == SERVER_ERROR_MESSAGE
    ensures Status(e) == Some(404) ==> ErrorMessage(e) == NOT_FOUND_MESSAGE
    ensures (Status(e) != Some(500) && Status(e) != Some(404) && e.response.Some?
             && e.response.value.message.MessageText? && e.response.value.message.text != "") ==>
              ErrorMessage(e) == e.response.value.message.text
    ensures (!HasBodyMessage(e) && Status(e) != Some(500) && Status(e) != Some(404)) ==>
              ErrorMessage(e) == if e.message == "" then UNEXPECTED_ERROR_MESSAGE else e.message
  {
  }

  /**
   * Every failure yields one of the fixed messages or text that came with the
   * failure, and it is empty only for a body message list whose elements are
   * all empty.
   */
  lemma ErrorMessageOrigin(e: RequestFailure)
    ensures var m := ErrorMessage(e);
      || m in {SERVER_ERROR_MESSAGE, NOT_FOUND_MESSAGE, UNEXPECTED_ERROR_MESSAGE}
      || m == e.message
      || (e.response.Some? && m == BodyMessageText(e.response.value.message))
    ensures ErrorMessage(e) == "" ==>
      && e.response.Some? && e.response.value.message.MessageList?
      && |e.response.value.message.items| <= 1
      && (forall i :: 0 <= i < |e.response.value.message.items| ==> e.response.value.message.items[i] == "")
  {
    if ErrorMessage(e) == "" {
      JoinEmpty(e.response.value.message.items, ",");
    }
  }

  /** A validation failure (status 400) with a list of messages reports them all, comma-separated. */
  lemma ValidationListExample()
    ensures ErrorMessage(RequestFailure("Request failed with status code 400",
              Some(ErrorResponse(400, MessageList(["a", "b"]))))) == "a,b"
    ensures ErrorMessage(RequestFailure("Request failed with status code 500",
              Some(ErrorResponse(500, MessageText("database down"))))) == SERVER_ERROR_MESSAGE
    ensures ErrorMessage(RequestFailure("", None)) == UNEXPECTED_ERROR_MESSAGE
  {
    assert Join(["a", "b"], ",") == "a,b" by {
      assert ["a", "b"][1..] == ["b"];
    }
  }
}
