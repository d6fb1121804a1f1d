/** The outcome of one `fetch` as the page sees it. The network is not modelled: each
    request's outcome is an input. */
module Http {
  import opened Wrappers
  import opened Text

  /** What `response.json()` produced: the parsed value, or a rejection with its message. */
  datatype Body<T> = Json(value: T) | NotJson(reason: string)

  /** `fetch` rejected (with the error's message), or a response arrived with a status code. */
  datatype Reply<T> = NetworkFailure(reason: string) | Status(code: nat, body: Body<T>)

  /** `response.ok` */
  predicate IsOk(code: nat)
  {
    200 <= code <= 299
  }

  const HttpErrorPrefix: string := "HTTP error! Status: "

  /** The message of the error thrown for a non-ok status. */
  function HttpErrorMessage(code: nat): string
  {
    HttpErrorPrefix + Digits(code)
  }

  /** The message the `catch` block receives, or `None` when the body was parsed and no
      exception reached it. */
  function Failure<T>(reply: Reply<T>): (r: Option<string>)
    ensures r.None? <==> reply.Status? && IsOk(reply.code) && reply.body.Json?
    ensures reply.NetworkFailure? ==> r == Some(reply.reason)
    ensures reply.Status? && IsOk(reply.code) && reply.body.NotJson? ==> r == Some(reply.body.reason)
    ensures reply.Status? && !IsOk(reply.code) ==> r.Some? && HttpErrorPrefix <= r.value
  {
    match reply
    case NetworkFailure(reason) => Some(reason)
    case Status(code, body) =>
      if !IsOk(code) then Some(HttpErrorMessage(code))
      else match body
        case NotJson(reason) => Some(reason)
        case Json(_) => None
  }

  /** The error for a non-ok status is never empty and names the status: the digits after
      the fixed prefix read back as the code. */
  lemma HttpErrorNamesStatus<T>(reply: Reply<T>)
    requires reply.Status? && !IsOk(reply.code)
    ensures Failure(reply).Some?
    ensures var m := Failure(reply).value;
      m != "" && HttpErrorPrefix <= m && m[|HttpErrorPrefix|..] == Digits(reply.code) &&
      IsDecimal(m[|HttpErrorPrefix|..]) &&
      ParseDecimal(m[|HttpErrorPrefix|..]) == reply.code
  {
    var m := HttpErrorMessage(reply.code);
    assert m[|HttpErrorPrefix|..] == Digits(reply.code);
    ParseDigits(reply.code);
  }
}
