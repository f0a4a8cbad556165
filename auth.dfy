/** The request guards of backend/src/middleware/auth.middleware.ts: `authenticate` checks the bearer token
    and the user behind it and records the token's payload on the request; `authorize` admits only the listed
    roles. The JWT check and the user lookup are parameters. */
module Auth {
  import opened Wrappers
  import opened Text

  /** The payload a verified token carries. */
  datatype TokenPayload = TokenPayload(userId: string, email: string, role: string)

  /** An `AppError`: the message and the HTTP status the error handler answers with. */
  datatype AppError = AppError(message: string, statusCode: int)

  /** The one property of a stored user that `authenticate` reads. */
  datatype Account = Account(isActive: bool)

  const BearerPrefix: string := "Bearer "

  const NoToken: AppError := AppError("No token provided", 401)

  /** What `verifyToken` throws for a token that does not verify. */
  const InvalidToken: AppError := AppError("Invalid or expired token", 401)

  const UserGone: AppError := AppError("User no longer exists or is inactive", 401)

  const AuthRequired: AppError := AppError("Authentication required", 401)

  /** The token of an `Authorization` header: present only when the header starts with `Bearer `, and then
      the header without its first seven characters. */
  function BearerToken(header: Option<string>): (r: Option<string>)
    ensures r.Some? <==> header.Some? && StartsWith(header.value, BearerPrefix)
    ensures r.Some? ==> header.value == BearerPrefix + r.value
  {
    if header.Some? && StartsWith(header.value, BearerPrefix) then
      assert header.value == header.value[..7] + header.value[7..];
      Some(header.value[7..])
    else None
  }

  /** Whatever follows `Bearer ` is the token. */
  lemma BearerTokenOf(token: string)
    ensures BearerToken(Some(BearerPrefix + token)) == Some(token)
  {
    assert (BearerPrefix + token)[..7] == BearerPrefix;
    assert (BearerPrefix + token)[7..] == token;
  }

  /** The decision `authenticate` reaches: the header must carry a bearer token, the token must verify
      (`verify` answers `None` where `verifyToken` throws), and the user it names must exist and be active. */
  function Authentication(header: Option<string>, verify: string -> Option<TokenPayload>,
                          findUser: string -> Option<Account>): (r: Result<TokenPayload, AppError>)
    ensures r.Failure? ==> r.error.statusCode == 401
    ensures r == Failure(NoToken) <==> BearerToken(header).None?
    ensures r == Failure(InvalidToken) <==> BearerToken(header).Some? && verify(BearerToken(header).value).None?
    ensures r.Success? ==> exists token :: header == Some(BearerPrefix + token) && verify(token) == Some(r.value)
    ensures r.Success? ==> findUser(r.value.userId) == Some(Account(true))
  {
    match BearerToken(header)
    case None => Failure(NoToken)
    case Some(token) =>
      match verify(token)
      case None => Failure(InvalidToken)
      case Some(decoded) =>
        var user := findUser(decoded.userId);
        if user.None? || !user.value.isActive then Failure(UserGone) else Success(decoded)
  }

  /** A verified token of an active user is accepted with its own payload. */
  lemma ActiveUserAccepted(token: string, verify: string -> Option<TokenPayload>, findUser: string -> Option<Account>)
    requires verify(token).Some? && findUser(verify(token).value.userId) == Some(Account(true))
    ensures Authentication(Some(BearerPrefix + token), verify, findUser) == Success(verify(token).value)
  {
    BearerTokenOf(token);
  }

  /** A bearer token that does not verify is refused with 401 'Invalid or expired token'. */
  lemma UnverifiedTokenRefused(token: string, verify: string -> Option<TokenPayload>, findUser: string -> Option<Account>)
    requires verify(token).None?
    ensures Authentication(Some(BearerPrefix + token), verify, findUser) == Failure(InvalidToken)
  {
    BearerTokenOf(token);
  }

  /** A well-formed token that verifies is still refused with 401 once its user is gone or deactivated. */
  lemma InactiveUserRefused(token: string, verify: string -> Option<TokenPayload>, findUser: string -> Option<Account>)
    requires verify(token).Some?
    requires findUser(verify(token).value.userId) != Some(Account(true))
    ensures Authentication(Some(BearerPrefix + token), verify, findUser) == Failure(UserGone)
  {
    BearerTokenOf(token);
  }

  /** The request as the middleware sees it: the `Authorization` header and the `user` slot `authenticate`
      fills. */
  class AuthRequest {
    const authorization: Option<string>
    var user: Option<TokenPayload>

    constructor(authorization: Option<string>)
      ensures this.authorization == authorization && user.None?
    {
      this.authorization := authorization;
      user := None;
    }
  }

  /** `authenticate`: every failure is handed to `next` as its error (the result), and on success the payload
      is stored on the request and `next()` is called with no error. */
  method Authenticate(req: AuthRequest, verify: string -> Option<TokenPayload>, findUser: string -> Option<Account>)
    returns (nextError: Option<AppError>)
    modifies req
    ensures var d := Authentication(req.authorization, verify, findUser);
            && (nextError.None? <==> d.Success?)
            && (d.Failure? ==> nextError == Some(d.error) && req.user == old(req.user))
            && (d.Success? ==> req.user == Some(d.value))
  {
    var header := req.authorization;
    if header.None? || !StartsWith(header.value, BearerPrefix) {
      return Some(NoToken);
    }
    var token := header.value[7..];
    var decoded := verify(token);
    if decoded.None? {
      return Some(InvalidToken);
    }
    var user := findUser(decoded.value.userId);
    if user.None? || !user.value.isActive {
      return Some(UserGone);
    }
    req.user := Some(decoded.value);
    return None;
  }

  /** `xs.join(sep)`. */
  function Join(xs: seq<string>, sep: string): (r: string)
    ensures xs == [] ==> r == ""
    ensures |xs| == 1 ==> r == xs[0]
  {
    if xs == [] then ""
    else if |xs| == 1 then xs[0]
    else Join(xs[..|xs| - 1], sep) + sep + xs[|xs| - 1]
  }

  /** The 403 error naming the roles that would have been admitted. */
  function AccessDenied(allowedRoles: seq<string>): AppError {
    AppError("Access denied. Required roles: " + Join(allowedRoles, ", "), 403)
  }

  /** `authorize(...allowedRoles)` on a request whose `user` slot holds `user`: `None` means `next()` is
      called. */
  function Authorize(user: Option<TokenPayload>, allowedRoles: seq<string>): (r: Option<AppError>)
    ensures r.None? <==> user.Some? && user.value.role in allowedRoles
    ensures r == Some(AuthRequired) <==> user.None?
    ensures user.Some? && user.value.role !in allowedRoles ==> r == Some(AccessDenied(allowedRoles))
  {
    if user.None? then Some(AuthRequired)
    else if user.value.role !in allowedRoles then Some(AccessDenied(allowedRoles))
    else None
  }

  /** Allowing more roles never turns away a user who was admitted. */
  lemma AuthorizeMonotone(user: Option<TokenPayload>, fewer: seq<string>, more: seq<string>)
    requires forall role :: role in fewer ==> role in more
    requires Authorize(user, fewer).None?
    ensures Authorize(user, more).None?
  {
  }

  /** `authorize()` with no roles refuses every request. */
  lemma AuthorizeNoRoles(user: Option<TokenPayload>)
    ensures Authorize(user, []).Some?
    ensures user.Some? ==> Authorize(user, []) == Some(AppError("Access denied. Required roles: ", 403))
  {
    assert "Access denied. Required roles: " + Join([], ", ") == "Access denied. Required roles: ";
  }
}
