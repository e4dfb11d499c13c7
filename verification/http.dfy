/** Requests and replies of the HTTP handlers: the method that selects a branch, and the
    reply each branch sends. */
module Http {
  import opened Wrappers
  import Text

  datatype Method = Get | Post | Put | Patch | Delete | Options

  /** A handler's reply: the CORS preflight answer `'ok'`, a JSON body with status 200, or an
      error body `{ error: message }` with its status code. */
  datatype Reply<+T> = Preflight | Ok(body: T) | Err(status: nat, message: string) {
    function Status(): nat {
      match this
      case Preflight => 200
      case Ok(_) => 200
      case Err(s, _) => s
    }
  }

  /** The message a failed JavaScript operation (a property read of `null`, a body that is not
      JSON or not form data) carries into a handler's `catch`. The runtime's wording is not
      part of the model, so one placeholder stands for it. */
  const RuntimeError := "runtime error"

  /** The identifier the backend's auth service gives a signed-in user. */
  type UserId = string

  const AuthorizationRequired := "Authorization required"
  const InvalidToken := "Invalid token"

  /** The bearer check of the functions that authenticate with the service key: a missing
      or empty `Authorization` header, then a token (the header with its first `'Bearer '`
      removed) that the auth service `verify` does not accept, are refused with 401. */
  function Authenticate(header: Option<string>, verify: string -> Option<UserId>): (r: Result<UserId, string>)
    ensures r.Failure? ==> r.error in {AuthorizationRequired, InvalidToken}
    ensures r == Failure(AuthorizationRequired) <==> header.None? || header.value == []
    ensures r.Success? ==> header.Some? && verify(Text.ReplaceFirst(header.value, "Bearer ", "")) == Some(r.value)
  {
    if header.None? || header.value == [] then Failure(AuthorizationRequired)
    else
      match verify(Text.ReplaceFirst(header.value, "Bearer ", ""))
      case None => Failure(InvalidToken)
      case Some(u) => Success(u)
  }
}
