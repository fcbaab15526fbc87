/**
 * A network fetch, seen from the code that awaits it: the request either
 * resolves with a response (status and, when read, its text) or throws.
 */
module Fetch {
  import opened Wrappers
  import opened Decimal

  datatype FetchOutcome =
      /** `fetch` resolved; `body` is what `response.text()` resolves to. */
    | Response(status: nat, body: string)
      /** `fetch` or `text()` threw an `Error` with this message. */
    | ThrownError(message: string)
      /** Something that is not an `Error` was thrown. */
    | ThrownNonError

  /** `response.ok`: the status lies in the range 200 to 299. */
  predicate IsOk(status: nat) {
    200 <= status <= 299
  }

  const HttpErrorPrefix: string := "HTTP error, status = "

  /** The message of the `Error` thrown for a response that is not ok. */
  function HttpErrorMessage(status: nat): string {
    HttpErrorPrefix + NatToString(status)
  }

  /** The wording both fetch helpers use for a thrown value that is not an `Error`. */
  const UnknownErrorText: string := "Unknown error - See console for details"

  /** What a thrown value looks like to `catch`: an `Error` with its message, or anything else. */
  datatype Thrown = ErrorValue(message: string) | NonError

  /** What the `try` block of both fetch helpers ends in: the text, or what was thrown. */
  datatype Settled = Body(text: string) | Caught(thrown: Thrown)

  function Settle(o: FetchOutcome): (r: Settled)
    ensures r.Body? <==> o.Response? && IsOk(o.status)
    ensures r.Body? ==> r.text == o.body
    ensures r == Caught(NonError) <==> o == ThrownNonError
    ensures o.Response? && !IsOk(o.status) ==> r == Caught(ErrorValue(HttpErrorMessage(o.status)))
    ensures o.ThrownError? ==> r == Caught(ErrorValue(o.message))
  {
    match o
    case Response(status, body) =>
      if IsOk(status) then Body(body) else Caught(ErrorValue(HttpErrorMessage(status)))
    case ThrownError(message) => Caught(ErrorValue(message))
    case ThrownNonError => Caught(NonError)
  }

  /** The status code can be read back from the HTTP error message. */
  lemma HttpErrorNamesStatus(status: nat)
    ensures |HttpErrorMessage(status)| > |HttpErrorPrefix|
    ensures ParseInt(HttpErrorMessage(status)[|HttpErrorPrefix|..]) == Some(status)
  {
    assert HttpErrorMessage(status)[|HttpErrorPrefix|..] == NatToString(status);
    ParseIntOfNatToString(status);
  }
}
