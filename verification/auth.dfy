/** The `x-user-id` header dependency every authenticated route uses. */
module Auth {
  import opened Base
  import opened Http

  /** `get_current_user`: a missing or empty header is a 401; otherwise the
      header value is the caller id, unchecked against the user table. */
  function Authenticate(header: Option<string>): (r: Result<UserId>)
    ensures r.Err? <==> header.None? || header.value == ""
    ensures r.Err? ==> r.error == Error(401, MissingCaller)
    ensures r.Ok? ==> header == Some(r.value)
  {
    match header
    case None => Err(Error(401, MissingCaller))
    case Some(id) => if id == "" then Err(Error(401, MissingCaller)) else Ok(id)
  }
}
