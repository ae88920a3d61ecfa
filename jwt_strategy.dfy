/**
 * The access verifier: where the access token is read from, the fail-fast check on the
 * signing secret, expiry enforcement, and the projection of the verified claims.
 * Signing and verification themselves are abstract (`Signer`).
 */
module JwtStrategy {
  import opened Wrappers
  import opened CreateUserDto

  /** An incoming request as far as token extraction sees it: its parsed cookies, if any. */
  datatype Request = Request(cookies: Option<map<string, string>>)

  /** `cookieExtractor`: the non-empty `access_token` cookie, otherwise null. */
  function CookieExtractor(req: Option<Request>): (token: Option<string>)
    ensures token.Some? <==>
      req.Some? && req.value.cookies.Some? &&
      "access_token" in req.value.cookies.value && req.value.cookies.value["access_token"] != ""
    ensures token.Some? ==> token.value == req.value.cookies.value["access_token"]
  {
    if req.Some? && req.value.cookies.Some? then
      var cookies := req.value.cookies.value;
      if "access_token" in cookies && cookies["access_token"] != "" then Some(cookies["access_token"]) else None
    else None
  }

  /** `ExtractJwt.fromExtractors`: the first extractor that yields a token. */
  function FromExtractors(extractors: seq<Option<Request> -> Option<string>>, req: Option<Request>): (token: Option<string>)
    ensures token.None? <==> forall i | 0 <= i < |extractors| :: extractors[i](req).None?
    ensures token.Some? ==>
      exists i | 0 <= i < |extractors| :: extractors[i](req) == token &&
        forall j | 0 <= j < i :: extractors[j](req).None?
  {
    if extractors == [] then None
    else
      var first := extractors[0](req);
      if first.Some? then
        assert extractors[0](req) == first;
        first
      else
        var rest := FromExtractors(extractors[1..], req);
        FirstTokenOfTail(extractors, req, rest);
        rest
  }

  /** When the first extractor yields nothing, the tail's first token is the whole list's. */
  lemma FirstTokenOfTail(extractors: seq<Option<Request> -> Option<string>>, req: Option<Request>, rest: Option<string>)
    requires |extractors| > 0 && extractors[0](req).None?
    requires rest.None? <==> forall i | 0 <= i < |extractors| - 1 :: extractors[1..][i](req).None?
    requires rest.Some? ==>
      exists i | 0 <= i < |extractors| - 1 :: extractors[1..][i](req) == rest &&
        forall j | 0 <= j < i :: extractors[1..][j](req).None?
    ensures rest.None? <==> forall i | 0 <= i < |extractors| :: extractors[i](req).None?
    ensures rest.Some? ==>
      exists i | 0 <= i < |extractors| :: extractors[i](req) == rest &&
        forall j | 0 <= j < i :: extractors[j](req).None?
  {
    if rest.Some? {
      var i :| 0 <= i < |extractors| - 1 && extractors[1..][i](req) == rest &&
        forall j | 0 <= j < i :: extractors[1..][j](req).None?;
      assert extractors[i + 1](req) == rest;
      forall j | 0 <= j < i + 1 ensures extractors[j](req).None? {
        if j > 0 { assert extractors[j] == extractors[1..][j - 1]; }
      }
    } else {
      forall i | 0 <= i < |extractors| ensures extractors[i](req).None? {
        if i > 0 { assert extractors[i] == extractors[1..][i - 1]; }
      }
    }
  }

  /** The strategy's only token source is the cookie extractor. */
  function ExtractAccessToken(req: Option<Request>): (token: Option<string>)
    ensures token == CookieExtractor(req)
  {
    FromExtractors([CookieExtractor], req)
  }

  /** The claims signed into an access token, with issue and expiry times in seconds. */
  datatype JwtPayload = JwtPayload(sub: int, email: string, username: string, role: UserRole, iat: int, exp: int)

  /**
   * An abstract signature scheme: `sign` produces a token for a payload under a key,
   * `verify` recovers the payload of a token that checks under the key.
   */
  datatype Signer = Signer(
    sign: (JwtPayload, string) -> string,
    verify: (string, string) -> Option<JwtPayload>)

  /** A correct scheme: a token verifies under the key it was signed with, and is never empty. */
  ghost predicate Sound(signer: Signer) {
    forall p, key :: signer.verify(signer.sign(p, key), key) == Some(p) && signer.sign(p, key) != ""
  }

  /** The options handed to the passport strategy. */
  datatype StrategyOptions = StrategyOptions(ignoreExpiration: bool, secretOrKey: string)

  const MissingSecretMessage := "JWT_SECRET environment variable is not defined"

  /** The strategy's constructor: an undefined or empty `JWT_SECRET` is fatal. */
  function NewJwtStrategy(jwtSecret: Option<string>): (r: Result<StrategyOptions, string>)
    ensures r.Err? <==> jwtSecret.None? || jwtSecret.value == ""
    ensures r.Err? ==> r.error == MissingSecretMessage
    ensures r.Ok? ==> r.value.secretOrKey == jwtSecret.value && !r.value.ignoreExpiration
  {
    if jwtSecret.None? || jwtSecret.value == "" then Err(MissingSecretMessage)
    else Ok(StrategyOptions(false, jwtSecret.value))
  }

  /** The identity attached to an authenticated request. */
  datatype RequestUser = RequestUser(sub: int, email: string, username: string)

  /** `validate`: keeps `sub`, `email` and `username`; the role and the times are not forwarded. */
  function Validate(payload: JwtPayload): (user: RequestUser)
    ensures user.sub == payload.sub && user.email == payload.email && user.username == payload.username
  {
    RequestUser(payload.sub, payload.email, payload.username)
  }

  /** Two payloads that differ only in role and times yield the same request identity. */
  lemma RoleNeverForwarded(payload: JwtPayload, role: UserRole, iat: int, exp: int)
    ensures Validate(payload.(role := role, iat := iat, exp := exp)) == Validate(payload)
  {
  }

  datatype AuthFailure = NoToken | BadSignature | Expired

  /** Signature check, then expiry: a token is expired from its `exp` second on. */
  function VerifyToken(signer: Signer, options: StrategyOptions, token: string, now: int): (r: Result<JwtPayload, AuthFailure>)
    ensures r.Ok? <==>
      && signer.verify(token, options.secretOrKey).Some?
      && (options.ignoreExpiration || now < signer.verify(token, options.secretOrKey).value.exp)
    ensures r.Ok? ==> Some(r.value) == signer.verify(token, options.secretOrKey)
  {
    match signer.verify(token, options.secretOrKey)
    case None => Err(BadSignature)
    case Some(payload) =>
      if !options.ignoreExpiration && now >= payload.exp then Err(Expired) else Ok(payload)
  }

  /** A protected request: extract, verify, project. The user directory is never consulted. */
  function Authenticate(signer: Signer, options: StrategyOptions, req: Option<Request>, now: int): (r: Result<RequestUser, AuthFailure>)
    ensures ExtractAccessToken(req).None? ==> r == Err(NoToken)
    ensures r.Ok? ==>
      ExtractAccessToken(req).Some? &&
      VerifyToken(signer, options, ExtractAccessToken(req).value, now).Ok? &&
      r.value == Validate(VerifyToken(signer, options, ExtractAccessToken(req).value, now).value)
    ensures ExtractAccessToken(req).Some? ==>
      var verified := VerifyToken(signer, options, ExtractAccessToken(req).value, now);
      && (r.Ok? <==> verified.Ok?)
      && (verified.Err? ==> r == Err(verified.error))
  {
    match ExtractAccessToken(req)
    case None => Err(NoToken)
    case Some(token) =>
      match VerifyToken(signer, options, token, now)
      case Err(e) => Err(e)
      case Ok(payload) => Ok(Validate(payload))
  }
}
