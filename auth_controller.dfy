/**
 * The HTTP layer of login and refresh: each handler places the two tokens in cookies on the
 * response and answers with a body that carries everything except the tokens.
 */
module AuthController {
  import opened Wrappers
  import opened Hex
  import opened UserEntity
  import opened AuthService

  datatype SameSite = Strict | Lax | NoRestriction  // 'strict' | 'lax' | 'none'

  datatype CookieOptions = CookieOptions(
    httpOnly: bool,
    secure: bool,
    sameSite: SameSite,
    maxAge: int,  // milliseconds
    path: string,
    domain: string)

  const AccessCookieName := "access_token"
  const RefreshCookieName := "refresh_token"
  /** 15 minutes, in milliseconds. */
  const AccessCookieMaxAge := 15 * 60 * 1000
  /** 7 days, in milliseconds. */
  const RefreshCookieMaxAge := 7 * 24 * 60 * 60 * 1000
  const CookieDomain := ".onrender.com"

  /** The options both handlers use for both cookies, differing only in lifetime. */
  function SessionCookieOptions(maxAge: int): (options: CookieOptions)
    ensures options.httpOnly && options.secure && options.sameSite == NoRestriction
    ensures options.path == "/" && options.domain == CookieDomain && options.maxAge == maxAge
  {
    CookieOptions(true, true, NoRestriction, maxAge, "/", CookieDomain)
  }

  datatype SetCookie = SetCookie(name: string, value: string, options: CookieOptions)

  /**
   * The two cookies a successful login or refresh sets, access token first. The access
   * cookie lives exactly as long as the access token it carries.
   */
  function SessionCookies(tokens: TokenPair): (cookies: seq<SetCookie>)
    ensures |cookies| == 2
    ensures cookies[0].name == AccessCookieName && cookies[0].value == tokens.accessToken
    ensures cookies[1].name == RefreshCookieName && cookies[1].value == tokens.refreshToken
    ensures cookies[0].options == SessionCookieOptions(AccessTokenLifetime * 1000)
    ensures cookies[1].options == SessionCookieOptions(RefreshCookieMaxAge)
    ensures forall k | 0 <= k < |cookies| :: cookies[k].options.httpOnly && cookies[k].options.secure
  {
    [ SetCookie(AccessCookieName, tokens.accessToken, SessionCookieOptions(AccessCookieMaxAge)),
      SetCookie(RefreshCookieName, tokens.refreshToken, SessionCookieOptions(RefreshCookieMaxAge)) ]
  }

  /** The outgoing response, reduced to the cookies set on it. */
  class HttpResponse {
    var cookies: seq<SetCookie>

    constructor ()
      ensures cookies == []
    {
      cookies := [];
    }

    /** `res.cookie(name, value, options)`. */
    method Cookie(name: string, value: string, options: CookieOptions)
      modifies this
      ensures cookies == old(cookies) + [SetCookie(name, value, options)]
    {
      cookies := cookies + [SetCookie(name, value, options)];
    }
  }

  /** The login form: `username` may hold a username or an email. */
  datatype LoginDto = LoginDto(username: string, password: string)

  /** `{ success, message, user, expires_in, token_type }`. */
  datatype SessionBody = SessionBody(
    success: bool,
    message: string,
    user: UserSummary,
    expiresIn: int,
    tokenType: string)

  /** The body both handlers return: the session result without its two tokens. */
  function Body(result: SessionResult): (body: SessionBody)
    ensures body.success == result.success && body.message == result.message
    ensures body.user == result.tokens.user
    ensures body.expiresIn == result.tokens.expiresIn && body.tokenType == result.tokens.tokenType
  {
    SessionBody(result.success, result.message, result.tokens.user, result.tokens.expiresIn, result.tokens.tokenType)
  }

  /** The body does not depend on either token: it cannot leak them. */
  lemma BodyHidesTokens(result: SessionResult, accessToken: string, refreshToken: string)
    ensures Body(result) == Body(result.(tokens := result.tokens.(accessToken := accessToken, refreshToken := refreshToken)))
  {
  }

  /** `req.cookies['refresh_token']`, absent when the request has no such cookie. */
  function PresentedRefreshToken(cookies: map<string, string>): (presented: Option<string>)
    ensures presented.Some? <==> RefreshCookieName in cookies
    ensures presented.Some? ==> presented.value == cookies[RefreshCookieName]
  {
    if RefreshCookieName in cookies then Some(cookies[RefreshCookieName]) else None
  }

  class AuthController {
    const authService: AuthService

    ghost predicate Valid()
      reads this, authService, authService.userService
    {
      authService.Valid()
    }

    constructor (authService: AuthService)
      requires authService.Valid()
      ensures Valid() && this.authService == authService
    {
      this.authService := authService;
    }

    /** Sets both cookies for a fresh session, then answers with its token-free body. */
    method Respond(result: SessionResult, res: HttpResponse) returns (body: SessionBody)
      modifies res
      ensures res.cookies == old(res.cookies) + SessionCookies(result.tokens)
      ensures body == Body(result)
    {
      res.Cookie(AccessCookieName, result.tokens.accessToken, SessionCookieOptions(AccessCookieMaxAge));
      res.Cookie(RefreshCookieName, result.tokens.refreshToken, SessionCookieOptions(RefreshCookieMaxAge));
      body := Body(result);
    }

    /**
     * `POST api/auth/login`: on success the response carries the new pair as cookies and the
     * body; on failure the error propagates and no cookie is set.
     */
    method Login(dto: LoginDto, res: HttpResponse, random: seq<byte>, now: int)
      returns (r: Result<SessionBody, AuthError>)
      requires Valid()
      requires |random| == RefreshTokenBytes
      requires TokenHolders(authService.userService.users, Encode(random)) == {}
      modifies authService.userService, res
      ensures Valid()
      ensures authService.userService.ratings == old(authService.userService.ratings)
      ensures authService.userService.nextUserId == old(authService.userService.nextUserId)
      ensures r.Err? ==> res.cookies == old(res.cookies) && authService.userService.users == old(authService.userService.users)
      ensures r.Ok? || r == Err(InvalidCredentials) || r == Err(AccountDisabled)
      ensures r == Err(AccountDisabled) <==> DisabledMatch(old(authService.userService.users), dto.username)
      ensures r.Ok? <==> AcceptedMatch(old(authService.userService.users), dto.username, dto.password, authService.passwordMatches)
      ensures r.Ok? ==> r.value.user.id in old(authService.userService.users)
      ensures r.Ok? ==>
        var id := r.value.user.id;
        var tokens := IssuedTokens(authService.jwt, WithoutPassword(old(authService.userService.users)[id]), Encode(random), now);
        && Identifies(old(authService.userService.users)[id], dto.username)
        && r.value == Body(SessionResult(true, "Login successful", tokens))
        && res.cookies == old(res.cookies) + SessionCookies(tokens)
        && authService.userService.users == WithRefreshToken(old(authService.userService.users), id, Encode(random))
    {
      var result := authService.Login(dto.username, dto.password, random, now);
      if result.Err? {
        return Err(result.error);
      }
      var body := Respond(result.value, res);
      r := Ok(body);
    }

    /**
     * `POST api/auth/refresh_token`: the token is taken from the `refresh_token` cookie only;
     * on success both cookies are replaced by the rotated pair.
     */
    method Refresh(cookies: map<string, string>, res: HttpResponse, random: seq<byte>, now: int)
      returns (r: Result<SessionBody, AuthError>)
      requires Valid()
      requires |random| == RefreshTokenBytes
      requires TokenHolders(authService.userService.users, Encode(random)) == {}
      modifies authService.userService, res
      ensures Valid()
      ensures authService.userService.ratings == old(authService.userService.ratings)
      ensures authService.userService.nextUserId == old(authService.userService.nextUserId)
      ensures r.Err? ==>
        && r.error == InvalidRefreshToken
        && res.cookies == old(res.cookies)
        && authService.userService.users == old(authService.userService.users)
      ensures r.Ok? <==>
        exists id :: id in RefreshCandidates(old(authService.userService.users), PresentedRefreshToken(cookies)) &&
          old(authService.userService.users)[id].isActive
      ensures r.Ok? ==> r.value.user.id in old(authService.userService.users)
      ensures r.Ok? ==>
        var id := r.value.user.id;
        var tokens := IssuedTokens(authService.jwt, WithoutPassword(old(authService.userService.users)[id]), Encode(random), now);
        && RefreshCookieName in cookies
        && old(authService.userService.users)[id].refreshToken == Some(cookies[RefreshCookieName])
        && r.value == Body(SessionResult(true, "Token refreshed successfully", tokens))
        && res.cookies == old(res.cookies) + SessionCookies(tokens)
        && authService.userService.users == WithRefreshToken(old(authService.userService.users), id, Encode(random))
        && TokenHolders(authService.userService.users, cookies[RefreshCookieName]) == {}
    {
      var presented := PresentedRefreshToken(cookies);
      var result := authService.RefreshToken(presented, random, now);
      if result.Err? {
        return Err(result.error);
      }
      var body := Respond(result.value, res);
      r := Ok(body);
    }
  }
}
