/** `requireAuth`: the guard in front of every protected route. It reads the
    session cookie, checks the token's signature and expiry with `verify`
    (abstract; `None` stands for every token `jwt.verify` throws on), and
    either answers 401 or hands the request on with the token's `userId`.
    It takes no store, so it cannot change one. */
module Session {
  import opened Base

  const Unauthorized := 401
  const NotAuthenticated := "Not authenticated"
  const InvalidToken := "Invalid or expired token"

  /** The two things the guard can do: answer, or call `next` once. */
  datatype Decision = Reject(status: int, message: string) | Proceed(userId: int)

  /** The guard. `token` is the session cookie; JavaScript treats an empty
      cookie value like a missing one. */
  function RequireAuth(token: Option<string>, verify: string -> Option<int>): (d: Decision)
    ensures d.Reject? ==> d.status == Unauthorized
    ensures (token.None? || token.value == "") <==> (d.Reject? && d.message == NotAuthenticated)
    ensures (token.Some? && token.value != "" && verify(token.value).None?)
            <==> (d.Reject? && d.message == InvalidToken)
    ensures d.Proceed? <==> (token.Some? && token.value != "" && verify(token.value).Some?)
    ensures d.Proceed? ==> d.userId == verify(token.value).value
  {
    if token.None? || token.value == "" then Reject(Unauthorized, NotAuthenticated)
    else
      match verify(token.value)
      case None => Reject(Unauthorized, InvalidToken)
      case Some(userId) => Proceed(userId)
  }

  /** A token the verifier accepts always gets through, carrying the
      verified id. */
  lemma VerifiedTokenProceeds(token: string, verify: string -> Option<int>, userId: int)
    requires token != "" && verify(token) == Some(userId)
    ensures RequireAuth(Some(token), verify) == Proceed(userId)
  {
  }
}
