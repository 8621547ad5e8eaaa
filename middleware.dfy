/** The request guards: `authenticate` reads a Bearer token from the
    Authorization header, verifies it and attaches its claims to the request;
    `requireRole` lets a request through only for listed roles. Token
    verification is passed in as a function from the token to its outcome. */
module Middleware {
  import opened Common
  import opened Text

  const BearerPrefix: string := "Bearer "

  const NoToken: Failure := AppError(401, "No token provided")
  const InvalidToken: Failure := AppError(401, "Invalid or expired token")
  const NotAuthenticated: Failure := AppError(401, "Not authenticated")
  const InsufficientPermissions: Failure := AppError(403, "Insufficient permissions")

  /** What verifying a token does: yield its claims, throw an application
      error, or throw anything else (a malformed or expired token). */
  datatype Verification =
    | Verified(payload: Payload)
    | ThrewAppError(status: nat, message: string)
    | ThrewOther

  /** The token of an Authorization header: what follows a case-sensitive
      "Bearer " prefix. */
  function ExtractToken(header: Option<string>): (r: Result<string, Failure>)
    ensures r.Ok? <==> header.Some? && StartsWith(header.value, BearerPrefix)
    ensures r.Err? ==> r.error == NoToken
    ensures r.Ok? ==> header.value == BearerPrefix + r.value
  {
    if header.None? || header.value == "" || !StartsWith(header.value, BearerPrefix) then Err(NoToken)
    else
      assert header.value == header.value[..7] + header.value[7..];
      Ok(header.value[7..])
  }

  /** Extraction undoes prefixing. */
  lemma ExtractPrefixed(token: string)
    ensures ExtractToken(Some(BearerPrefix + token)) == Ok(token)
  {
    assert (BearerPrefix + token)[..7] == BearerPrefix;
    assert (BearerPrefix + token)[7..] == token;
  }

  /** The prefix is case-sensitive and needs its space. */
  lemma PrefixIsStrict()
    ensures ExtractToken(Some("bearer abc")).Err?
    ensures ExtractToken(Some("Bearerabc")).Err?
    ensures ExtractToken(None).Err? && ExtractToken(Some("")).Err?
  {
    assert "bearer abc"[..7] != BearerPrefix by { assert "bearer abc"[0] != BearerPrefix[0]; }
    assert "Bearerabc"[..7] != BearerPrefix by { assert "Bearerabc"[6] != BearerPrefix[6]; }
  }

  /** What `authenticate` hands on: the claims, or the error passed to next. */
  function AuthOutcome(header: Option<string>, verify: string -> Verification): (r: Result<Payload, Failure>)
    ensures ExtractToken(header).Err? ==> r == Err(NoToken)
    ensures ExtractToken(header).Ok? ==>
      match verify(ExtractToken(header).value)
      case Verified(p) => r == Ok(p)
      case ThrewAppError(s, m) => r == Err(AppError(s, m))
      case ThrewOther => r == Err(InvalidToken)
  {
    match ExtractToken(header)
    case Err(e) => Err(e)
    case Ok(token) =>
      match verify(token)
      case Verified(p) => Ok(p)
      case ThrewAppError(s, m) => Err(AppError(s, m))
      case ThrewOther => Err(InvalidToken)
  }

  /** A header without the prefix never reaches verification. */
  lemma NoPrefixSkipsVerification(header: Option<string>, v1: string -> Verification, v2: string -> Verification)
    requires header.None? || !StartsWith(header.value, BearerPrefix)
    ensures AuthOutcome(header, v1) == AuthOutcome(header, v2) == Err(NoToken)
  {
  }

  /** Authentication succeeds exactly when the prefixed token verifies. */
  lemma BearerTokenAuthenticates(token: string, verify: string -> Verification)
    ensures AuthOutcome(Some(BearerPrefix + token), verify).Ok? <==> verify(token).Verified?
    ensures verify(token).Verified? ==> AuthOutcome(Some(BearerPrefix + token), verify).value == verify(token).payload
  {
    ExtractPrefixed(token);
  }

  class Request {
    var authorization: Option<string>
    var user: Option<Payload>

    constructor (authorization: Option<string>)
      ensures this.authorization == authorization && user.None?
    {
      this.authorization := authorization;
      user := None;
    }
  }

  /** The authenticate middleware: on success it sets `req.user` and calls
      next with no error (None); otherwise next gets the error. */
  method Authenticate(req: Request, verify: string -> Verification) returns (err: Option<Failure>)
    modifies req
    ensures req.authorization == old(req.authorization)
    ensures err.None? <==> AuthOutcome(old(req.authorization), verify).Ok?
    ensures err.None? ==> req.user == Some(AuthOutcome(old(req.authorization), verify).value)
    ensures err.Some? ==> req.user == old(req.user) && err.value == AuthOutcome(old(req.authorization), verify).error
  {
    var extracted := ExtractToken(req.authorization);
    if extracted.Err? {
      return Some(extracted.error);
    }
    var outcome := verify(extracted.value);
    match outcome
    case Verified(p) =>
      req.user := Some(p);
      err := None;
    case ThrewAppError(s, m) =>
      err := Some(AppError(s, m));
    case ThrewOther =>
      err := Some(InvalidToken);
  }

  /** `requireRole(...roles)`: None lets the request through. */
  function RequireRole(roles: seq<string>, user: Option<Payload>): (r: Option<Failure>)
    ensures r.None? <==> user.Some? && user.value.role in roles
    ensures user.None? ==> r == Some(NotAuthenticated)
    ensures user.Some? && user.value.role !in roles ==> r == Some(InsufficientPermissions)
  {
    if user.None? then Some(NotAuthenticated)
    else if user.value.role !in roles then Some(InsufficientPermissions)
    else None
  }

  lemma EmptyRoleListRejectsAll(p: Payload)
    ensures RequireRole([], Some(p)) == Some(InsufficientPermissions)
  {
  }

  /** Listing more roles never turns a passing request away. */
  lemma MoreRolesAdmitMore(roles: seq<string>, more: seq<string>, user: Option<Payload>)
    requires RequireRole(roles, user).None?
    ensures RequireRole(roles + more, user).None?
  {
  }

  /** A route guarded by `authenticate` and then `requireRole(...roles)`:
      the handler runs (None) exactly when the bearer token verifies to
      claims whose role is listed. */
  method Guard(req: Request, verify: string -> Verification, roles: seq<string>) returns (err: Option<Failure>)
    modifies req
    ensures err.None? <==>
      AuthOutcome(old(req.authorization), verify).Ok? && AuthOutcome(old(req.authorization), verify).value.role in roles
    ensures AuthOutcome(old(req.authorization), verify).Err? ==> err == Some(AuthOutcome(old(req.authorization), verify).error)
    ensures AuthOutcome(old(req.authorization), verify).Ok? && AuthOutcome(old(req.authorization), verify).value.role !in roles ==>
      err == Some(InsufficientPermissions)
    ensures req.authorization == old(req.authorization)
    ensures AuthOutcome(old(req.authorization), verify).Ok? ==> req.user == Some(AuthOutcome(old(req.authorization), verify).value)
    ensures AuthOutcome(old(req.authorization), verify).Err? ==> req.user == old(req.user)
  {
    err := Authenticate(req, verify);
    if err.None? {
      err := RequireRole(roles, req.user);
    }
  }
}
