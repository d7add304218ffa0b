/**
 * backend/middleware/auth.js: `protect`, which authenticates a request from its
 * bearer token and attaches the account, and the guards `authorize` and
 * `checkActive`. The JWT library is an abstract token service whose clock is
 * a parameter.
 */
module Auth {
  import opened Wrappers
  import opened Text
  import opened UserModel
  import opened Http

  /** What `jwt.verify` decides about a token at a given time. */
  datatype Verdict = Verified(id: Id) | InvalidToken | ExpiredToken

  /** `jwt.sign({ id }, secret, { expiresIn: lifetime })` issued at a time, and `jwt.verify(token, secret)` at a time. */
  datatype TokenService = TokenService(sign: (Id, int) -> string, verify: (string, int) -> Verdict, lifetime: nat)

  /**
   * The library's promise: a token signed at `t0` verifies to its id strictly
   * before `t0 + lifetime` and is expired from then on; tokens are non-empty
   * and contain no space (JWTs are dot-separated base64url).
   */
  ghost predicate Sound(ts: TokenService) {
    && (forall id, t0, t :: ts.verify(ts.sign(id, t0), t) == if t < t0 + ts.lifetime then Verified(id) else ExpiredToken)
    && (forall id, t0 :: ts.sign(id, t0) != [] && ' ' !in ts.sign(id, t0))
  }

  const NotAuthorized := "Not authorized to access this route. Please login."
  const BadToken := "Invalid or expired token. Please login again."
  const AccountGone := "User no longer exists"
  const AccountDeactivated := "Your account has been deactivated. Please contact admin."
  const RoleMissing := "User not authenticated or role missing"
  const AccountInactive := "Your account is inactive. Please contact administrator."

  function RoleRefused(r: Role): string {
    "User role '" + RoleName(r) + "' is not authorized to access this route"
  }

  /**
   * The token `protect` finds: the header must be present, non-empty and start
   * with `Bearer` (no space required), and the token is the second
   * space-separated field, which must be non-empty.
   */
  function BearerToken(header: Option<string>): (t: Option<string>)
    ensures t.Some? ==> t.value != [] && ' ' !in t.value
    ensures t.Some? <==>
              && header.Some? && StartsWith(header.value, "Bearer")
              && |Split(header.value, ' ')| > 1 && Split(header.value, ' ')[1] != []
    ensures t.Some? ==> t.value == Split(header.value, ' ')[1]
  {
    if header.Some? && header.value != [] && StartsWith(header.value, "Bearer") then
      var fields := Split(header.value, ' ');
      if |fields| > 1 && fields[1] != [] then Some(fields[1]) else None
    else None
  }

  /** The header the front end sends, `Bearer ${token}`, gives back exactly the token. */
  lemma BearerTokenRoundTrip(token: string)
    requires token != [] && ' ' !in token
    ensures BearerToken(Some("Bearer " + token)) == Some(token)
  {
    var parts := ["Bearer", token];
    assert Join(parts, " ") == "Bearer " + token by {
      assert Join(parts[1..], " ") == token;
    }
    SplitJoin(parts, ' ');
    assert StartsWith("Bearer " + token, "Bearer") by {
      assert ("Bearer " + token)[..6] == "Bearer";
    }
  }

  /** The account the token of `header` names, when it is stored and active. */
  predicate Admits(header: Option<string>, accounts: map<Id, Account>, verify: (string, int) -> Verdict, now: int, id: Id) {
    && BearerToken(header).Some?
    && verify(BearerToken(header).value, now) == Verified(id)
    && id in accounts
    && accounts[id].status == Active
  }

  /**
   * The checks of `protect` in their order: no token 401, a token that fails
   * verification (invalid or expired alike) 401, an id with no account 401,
   * an inactive account 403; otherwise the account without its password.
   */
  function Authenticate(header: Option<string>, accounts: map<Id, Account>, verify: (string, int) -> Verdict, now: int)
    : (r: Result<PublicAccount, Reply>)
    ensures r.Success? ==> exists id :: Admits(header, accounts, verify, now, id) && r.value == ToJson(accounts[id])
    ensures forall id | Admits(header, accounts, verify, now, id) :: r == Success(ToJson(accounts[id]))
    ensures r.Failure? ==> !r.error.success && r.error.data == NoData && (r.error.status == 401 || r.error.status == 403)
    ensures r.Failure? && r.error.status == 403 <==>
              BearerToken(header).Some? && verify(BearerToken(header).value, now).Verified?
              && verify(BearerToken(header).value, now).id in accounts
              && accounts[verify(BearerToken(header).value, now).id].status == Inactive
  {
    match BearerToken(header)
    case None => Failure(Fail(401, NotAuthorized))
    case Some(token) =>
      match verify(token, now)
      case Verified(id) =>
        if id !in accounts then Failure(Fail(401, AccountGone))
        else if accounts[id].status == Inactive then Failure(Fail(403, AccountDeactivated))
        else Success(ToJson(accounts[id]))
      case _ => Failure(Fail(401, BadToken))
  }

  /**
   * A header that yields no token (missing, not starting with `Bearer`, or
   * with nothing after `Bearer `, as in "Bearer", "Bearer " and "Bearerx") is
   * refused with 401 before anything else.
   */
  lemma NoBearerRefused(header: Option<string>, accounts: map<Id, Account>, verify: (string, int) -> Verdict, now: int)
    requires BearerToken(header).None?
    ensures Authenticate(header, accounts, verify, now) == Failure(Fail(401, NotAuthorized))
  {
  }

  /** Invalid and expired tokens get the same answer: the reason shows in neither status nor message. */
  lemma InvalidAndExpiredAlike(header: Option<string>, accounts: map<Id, Account>,
                               v1: (string, int) -> Verdict, v2: (string, int) -> Verdict, now: int)
    requires BearerToken(header).Some?
    requires !v1(BearerToken(header).value, now).Verified? && !v2(BearerToken(header).value, now).Verified?
    ensures Authenticate(header, accounts, v1, now) == Authenticate(header, accounts, v2, now) == Failure(Fail(401, BadToken))
  {
  }

  /** A verified id whose account is gone is refused with 401 "User no longer exists". */
  lemma MissingAccountRefused(header: Option<string>, accounts: map<Id, Account>, verify: (string, int) -> Verdict, now: int)
    requires BearerToken(header).Some? && verify(BearerToken(header).value, now).Verified?
    requires verify(BearerToken(header).value, now).id !in accounts
    ensures Authenticate(header, accounts, verify, now) == Failure(Fail(401, AccountGone))
  {
  }

  /**
   * End to end with the token service: the header built from a token signed
   * for a stored, active account admits that account until the token's
   * lifetime has elapsed, and is refused with the bad-token 401 from then on.
   */
  lemma SignedTokenAdmits(ts: TokenService, accounts: map<Id, Account>, id: Id, issuedAt: int, now: int)
    requires Sound(ts)
    requires id in accounts && accounts[id].status == Active
    ensures now < issuedAt + ts.lifetime ==>
              Authenticate(Some("Bearer " + ts.sign(id, issuedAt)), accounts, ts.verify, now) == Success(ToJson(accounts[id]))
    ensures now >= issuedAt + ts.lifetime ==>
              Authenticate(Some("Bearer " + ts.sign(id, issuedAt)), accounts, ts.verify, now) == Failure(Fail(401, BadToken))
  {
    var token := ts.sign(id, issuedAt);
    BearerTokenRoundTrip(token);
    assert ts.verify(token, now) == if now < issuedAt + ts.lifetime then Verified(id) else ExpiredToken;
  }

  /** The request as the middleware sees and changes it. */
  class Request {
    var authorization: Option<string>
    var user: Option<PublicAccount>
    var body: Body
    var validationErrors: seq<FieldError>

    constructor(authorization: Option<string>, body: Body)
      ensures this.authorization == authorization && this.body == body
      ensures user == None && validationErrors == []
    {
      this.authorization := authorization;
      this.body := body;
      user := None;
      validationErrors := [];
    }
  }

  /**
   * `protect`: answers with the first failed check; only when every check
   * passes does it set `req.user` and call `next()`. Nothing else about the
   * request changes.
   */
  method Protect(req: Request, accounts: map<Id, Account>, verify: (string, int) -> Verdict, now: int) returns (g: Gate)
    modifies req
    ensures req.authorization == old(req.authorization) && req.body == old(req.body)
    ensures req.validationErrors == old(req.validationErrors)
    ensures var auth := Authenticate(old(req.authorization), accounts, verify, now);
            && (auth.Success? ==> g == Next && req.user == Some(auth.value))
            && (auth.Failure? ==> g == Halt(auth.error) && req.user == old(req.user))
  {
    var token: Option<string> := None;
    var header := req.authorization;
    if header.Some? && header.value != [] && StartsWith(header.value, "Bearer") {
      var fields := Split(header.value, ' ');
      token := if |fields| > 1 then Some(fields[1]) else None;
    }

    if token.None? || token.value == [] {
      return Halt(Fail(401, NotAuthorized));
    }

    var decoded := verify(token.value, now);
    if !decoded.Verified? {
      return Halt(Fail(401, BadToken));
    }

    if decoded.id !in accounts {
      return Halt(Fail(401, AccountGone));
    }
    var user := ToJson(accounts[decoded.id]);

    if user.status == Inactive {
      return Halt(Fail(403, AccountDeactivated));
    }

    req.user := Some(user);
    g := Next;
  }

  /**
   * `authorize(...roles)`: 401 without an attached user, 403 for a role outside
   * `roles`, and `next()` exactly for an attached user whose role is allowed.
   * (A stored role is never missing: it is an enumeration with a default.)
   */
  function Authorize(user: Option<PublicAccount>, roles: seq<Role>): (g: Gate)
    ensures g == Next <==> user.Some? && user.value.role in roles
    ensures user.None? ==> g == Halt(Fail(401, RoleMissing))
    ensures user.Some? && user.value.role !in roles ==> g == Halt(Fail(403, RoleRefused(user.value.role)))
  {
    if user.None? then Halt(Fail(401, RoleMissing))
    else if user.value.role !in roles then Halt(Fail(403, RoleRefused(user.value.role)))
    else Next
  }

  /**
   * `checkActive`: 403 exactly when the attached user is not active; without an
   * attached user reading `req.user.status` throws a TypeError.
   */
  function CheckActive(user: Option<PublicAccount>): (g: Gate)
    ensures user.Some? ==> (g == Next <==> user.value.status == Active)
    ensures user.Some? && user.value.status != Active ==> g == Halt(Fail(403, AccountInactive))
    ensures user.None? ==> g.Raise? && g.error.name == "TypeError"
  {
    if user.None? then Raise(Thrown("TypeError", "Cannot read properties of undefined (reading 'status')"))
    else if user.value.status != Active then Halt(Fail(403, AccountInactive))
    else Next
  }
}
