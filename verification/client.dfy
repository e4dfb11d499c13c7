/** How the pages read the answer of a call to one of the backend functions:
    `const data = await response.json(); if (!response.ok) throw new Error(data.error || fallback)`,
    with the `catch` showing the thrown error's message. */
module Client {
  import opened Wrappers
  import opened Json
  import Http

  /** The outcome of `fetch`: it throws (a network error, with its message), or a response
      arrives with its `ok` flag and its body as `response.json()` reads it. */
  datatype Response = FetchThrew(message: string) | Replied(ok: bool, body: ParseOutcome)

  /** The body of an ok response, or the message the page shows. A body that is not JSON
      throws while it is read; reading `error` of a `null` body throws too. */
  function Answer(resp: Response, fallback: string, fmt: real -> string): (r: Result<Json, string>)
    ensures r.Success? <==> resp.Replied? && resp.ok && resp.body.Parsed?
    ensures r.Success? ==> r.value == resp.body.value
    ensures resp.FetchThrew? ==> r == Failure(resp.message)
    ensures resp.Replied? && resp.body.Unparseable? ==> r == Failure(Http.RuntimeError)
    ensures resp.Replied? && !resp.ok && resp.body.Parsed? && resp.body.value.JNull? ==> r == Failure(Http.RuntimeError)
    ensures resp.Replied? && !resp.ok && resp.body.Parsed? && !resp.body.value.JNull? ==>
              var e := Member(resp.body.value, "error");
              r == Failure(if Present(e) then ToText(e.value, fmt) else fallback)
  {
    match resp
    case FetchThrew(m) => Failure(m)
    case Replied(ok, body) =>
      if body.Unparseable? then Failure(Http.RuntimeError)
      else if ok then Success(body.value)
      else if body.value.JNull? then Failure(Http.RuntimeError)
      else Failure(ToText(OrElse(Member(body.value, "error"), JStr(fallback)), fmt))
  }

  /** The body `{ error: message }` that every function sends with an error status is shown
      with exactly that message. */
  lemma ErrorBodyShown(message: string, fallback: string, fmt: real -> string)
    requires message != []
    ensures Answer(Replied(false, Parsed(JObj(map["error" := JStr(message)]))), fallback, fmt) == Failure(message)
  {
  }
}
