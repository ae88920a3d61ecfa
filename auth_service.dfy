/**
 * The authentication service: classifying the login identifier, checking credentials,
 * issuing an access/refresh token pair, rotating the refresh token, and resolving the
 * caller's identity. bcrypt's comparison, the JWT signer and the random source are
 * supplied from outside.
 */
module AuthService {
  import opened Wrappers
  import opened Hex
  import opened CreateUserDto
  import opened UserEntity
  import opened JwtStrategy
  import Directory = UserService

  datatype AuthError =
    | InvalidCredentials   // unknown account or wrong password
    | AccountDisabled      // account found but inactive
    | InvalidRefreshToken  // no slot holds the token, or its holder is inactive
    | MissingSubject       // the request identity carries no subject
    | UserNotFound         // the subject resolves to no account
  {
    function Message(): string {
      match this
      case InvalidCredentials => "Invalid credentials"
      case AccountDisabled => "Account is disabled"
      case InvalidRefreshToken => "Invalid refresh token"
      case MissingSubject => "Invalid token or user not found"
      case UserNotFound => "User not found"
    }

    /** 401 Unauthorized for every failure except the missing account, which is 404. */
    function Status(): int {
      if this == UserNotFound then 404 else 401
    }
  }

  /**
   * What a client can tell from a refusal: every failure is a 401 except the missing
   * account, which alone is a 404, and no two failures share a message, so the message
   * names the outcome. An unknown account and a wrong password are one outcome,
   * so a client cannot tell them apart.
   */
  lemma FailureResponses()
    ensures forall e: AuthError :: e.Status() == 404 <==> e == UserNotFound
    ensures forall e: AuthError :: e.Status() == 401 || e.Status() == 404
    ensures forall e1: AuthError, e2: AuthError :: e1.Message() == e2.Message() ==> e1 == e2
  {
  }

  // ---------------------------------------------------------------------------------------
  // Classifying the identifier: /^[^\s@]+@[^\s@]+\.[^\s@]+$/

  /** JavaScript's `\s`. */
  predicate IsWhitespace(c: char) {
    var n := c as int;
    n == 0x09 || n == 0x0A || n == 0x0B || n == 0x0C || n == 0x0D || n == 0x20 ||
    n == 0xA0 || n == 0x1680 || (0x2000 <= n <= 0x200A) || n == 0x2028 || n == 0x2029 ||
    n == 0x202F || n == 0x205F || n == 0x3000 || n == 0xFEFF
  }

  /** `[^\s@]+`: a non-empty run of characters that are neither whitespace nor `@`. */
  predicate Segment(s: string) {
    |s| > 0 && forall k | 0 <= k < |s| :: s[k] != '@' && !IsWhitespace(s[k])
  }

  /** The whole text is a segment, `@`, a segment, `.`, and a segment. */
  predicate IsEmail(text: string) {
    exists at, dot | 0 < at && at + 1 < dot && dot + 1 < |text| ::
      && text[at] == '@' && text[dot] == '.'
      && Segment(text[..at]) && Segment(text[at + 1..dot]) && Segment(text[dot + 1..])
  }

  /** Any three segments joined as `local@domain.tld` match. */
  lemma EmailFromParts(local: string, domain: string, tld: string)
    requires Segment(local) && Segment(domain) && Segment(tld)
    ensures IsEmail(local + "@" + domain + "." + tld)
  {
    var text := local + "@" + domain + "." + tld;
    var at, dot := |local|, |local| + 1 + |domain|;
    assert text[at] == '@' && text[dot] == '.';
    assert text[..at] == local;
    assert text[at + 1..dot] == domain;
    assert text[dot + 1..] == tld;
  }

  /** Every match splits back into three segments. */
  lemma EmailParts(text: string) returns (local: string, domain: string, tld: string)
    requires IsEmail(text)
    ensures Segment(local) && Segment(domain) && Segment(tld)
    ensures text == local + "@" + domain + "." + tld
  {
    var at, dot :| 0 < at && at + 1 < dot && dot + 1 < |text| &&
      text[at] == '@' && text[dot] == '.' &&
      Segment(text[..at]) && Segment(text[at + 1..dot]) && Segment(text[dot + 1..]);
    local, domain, tld := text[..at], text[at + 1..dot], text[dot + 1..];
    Reassemble(text, at, dot);
  }

  /** Cutting at the `@` and at the `.` and gluing back gives the text. */
  lemma Reassemble(text: string, at: int, dot: int)
    requires 0 <= at < dot < |text| && text[at] == '@' && text[dot] == '.'
    ensures text == text[..at] + "@" + text[at + 1..dot] + "." + text[dot + 1..]
  {
    assert text == text[..at] + [text[at]] + text[at + 1..dot] + [text[dot]] + text[dot + 1..];
  }

  /** Text without `@` is always treated as a username. */
  lemma NoAtIsNotEmail(text: string)
    requires forall k | 0 <= k < |text| :: text[k] != '@'
    ensures !IsEmail(text)
  {
  }

  /** How `validateUser` resolves an identifier: by email when it looks like one, else by username. */
  ghost predicate Identifies(u: User, identifier: string) {
    if IsEmail(identifier) then u.email == identifier else u.username == identifier
  }

  /** With unique emails and usernames, an identifier designates at most one account. */
  lemma IdentifiesAtMostOne(users: Users, identifier: string, a: int, b: int)
    requires UniqueEmails(users) && UniqueUsernames(users)
    requires a in users && b in users
    requires Identifies(users[a], identifier) && Identifies(users[b], identifier)
    ensures a == b
  {
    if IsEmail(identifier) {
      assert users[a].email == users[b].email;
    } else {
      assert users[a].username == users[b].username;
    }
  }

  /** Some account matching the identifier is disabled. */
  ghost predicate DisabledMatch(users: Users, identifier: string) {
    exists id :: id in users && Identifies(users[id], identifier) && !users[id].isActive
  }

  /** Some active account matching the identifier has a hash the password matches. */
  ghost predicate AcceptedMatch(users: Users, identifier: string, password: string, passwordMatches: (string, string) -> bool) {
    exists id :: id in users && Identifies(users[id], identifier) && users[id].isActive &&
      passwordMatches(password, users[id].password)
  }

  // ---------------------------------------------------------------------------------------
  // Tokens

  /** `expiresIn: '15m'`, in seconds. */
  const AccessTokenLifetime := 900
  const TokenType := "Bearer"
  /** `crypto.randomBytes(32)`. */
  const RefreshTokenBytes := 32

  /** The signer and the process-wide secret, shared by the issuer and the strategy. */
  datatype JwtConfig = JwtConfig(signer: Signer, secret: string)

  /** The claims of an access token issued at `now`. */
  function AccessPayload(user: PublicUser, now: int): (p: JwtPayload)
    ensures p.sub == user.id && p.email == user.email && p.username == user.username && p.role == user.role
    ensures p.iat == now && p.exp == now + AccessTokenLifetime
  {
    JwtPayload(user.id, user.email, user.username, user.role, now, now + AccessTokenLifetime)
  }

  function AccessToken(jwt: JwtConfig, user: PublicUser, now: int): string {
    jwt.signer.sign(AccessPayload(user, now), jwt.secret)
  }

  /** The shape of an issued refresh token: 64 lower-case hex digits. */
  predicate IsRefreshToken(s: string) {
    |s| == 2 * RefreshTokenBytes && IsHex(s)
  }

  datatype UserSummary = UserSummary(id: int, username: string, email: string)

  function Summary(u: PublicUser): UserSummary {
    UserSummary(u.id, u.username, u.email)
  }

  /** `access_token`, `refresh_token`, `token_type`, `expires_in`, `user`. */
  datatype TokenPair = TokenPair(
    accessToken: string,
    refreshToken: string,
    tokenType: string,
    expiresIn: int,
    user: UserSummary)

  /** The pair `generateTokens` returns for `user` at `now` with the given refresh token. */
  function IssuedTokens(jwt: JwtConfig, user: PublicUser, refreshToken: string, now: int): TokenPair {
    TokenPair(AccessToken(jwt, user, now), refreshToken, TokenType, AccessTokenLifetime, Summary(user))
  }

  /** `{ success, message, ...tokens }`. */
  datatype SessionResult = SessionResult(success: bool, message: string, tokens: TokenPair)

  datatype RegisterResult = RegisterResult(success: bool, message: string)

  datatype UserInfo = UserInfo(success: bool, user: UserSummary)

  /** An issued access token is accepted by the strategy until its expiry second and refused from then on. */
  lemma IssuedAccessTokenAuthenticates(
    jwt: JwtConfig, user: PublicUser, issuedAt: int, now: int, cookies: map<string, string>)
    requires Sound(jwt.signer)
    requires NewJwtStrategy(Some(jwt.secret)).Ok?
    requires "access_token" in cookies && cookies["access_token"] == AccessToken(jwt, user, issuedAt)
    ensures var options := NewJwtStrategy(Some(jwt.secret)).value;
      var outcome := Authenticate(jwt.signer, options, Some(Request(Some(cookies))), now);
      && (now < issuedAt + AccessTokenLifetime ==> outcome == Ok(RequestUser(user.id, user.email, user.username)))
      && (now >= issuedAt + AccessTokenLifetime ==> outcome == Err(Expired))
  {
    var payload := AccessPayload(user, issuedAt);
    assert jwt.signer.verify(jwt.signer.sign(payload, jwt.secret), jwt.secret) == Some(payload);
    assert jwt.signer.sign(payload, jwt.secret) != "";
  }

  // ---------------------------------------------------------------------------------------
  // Refresh lookup

  /**
   * The accounts the refresh lookup can return: those whose slot holds the presented token;
   * none when the request carries no token.
   */
  function RefreshCandidates(users: Users, presented: Option<string>): (candidates: set<int>)
    ensures forall id :: id in candidates <==> presented.Some? && id in users && users[id].refreshToken == presented
  {
    if presented.None? then {} else TokenHolders(users, presented.value)
  }

  /**
   * The same lookup as the source issues it: a missing cookie reaches the repository as
   * `where: { refreshToken: undefined }`, which places no condition, so every account can be returned.
   */
  function RefreshCandidatesAsWritten(users: Users, presented: Option<string>): (candidates: set<int>)
    ensures presented.None? ==> candidates == users.Keys
    ensures presented.Some? ==> candidates == RefreshCandidates(users, presented)
  {
    if presented.None? then users.Keys else TokenHolders(users, presented.value)
  }

  /** As written, a refresh request with no cookie at all can be answered with an active account that never logged in. */
  lemma AbsentCookieMatchesAsWritten()
    ensures var users := map[1 := User(1, "alice@x.com", "alice", "hash", Standard, true, None)];
      && 1 in RefreshCandidatesAsWritten(users, None)
      && users[1].isActive && users[1].refreshToken.None?
      && RefreshCandidates(users, None) == {}
  {
  }

  // ---------------------------------------------------------------------------------------

  class AuthService {
    const userService: Directory.UserService
    const jwt: JwtConfig
    /** `bcrypt.compare(plain, hash)`. */
    const passwordMatches: (string, string) -> bool

    ghost predicate Valid()
      reads this, userService
    {
      userService.Valid() && UniqueRefreshTokens(userService.users)
    }

    constructor (userService: Directory.UserService, jwt: JwtConfig, passwordMatches: (string, string) -> bool)
      requires userService.Valid() && UniqueRefreshTokens(userService.users)
      ensures Valid()
      ensures this.userService == userService && this.jwt == jwt && this.passwordMatches == passwordMatches
    {
      this.userService := userService;
      this.jwt := jwt;
      this.passwordMatches := passwordMatches;
    }

    /**
     * `validateUser`: finds the account the identifier designates, then refuses an unknown
     * account, a disabled one (whatever the password) and a wrong password, in that order.
     */
    method ValidateUser(identifier: string, password: string) returns (r: Result<PublicUser, AuthError>)
      requires Valid()
      ensures r.Ok? || r == Err(InvalidCredentials) || r == Err(AccountDisabled)
      ensures r == Err(AccountDisabled) <==> DisabledMatch(userService.users, identifier)
      ensures r.Ok? <==> AcceptedMatch(userService.users, identifier, password, passwordMatches)
      ensures r.Ok? ==>
        && r.value.id in userService.users
        && r.value == WithoutPassword(userService.users[r.value.id])
        && Identifies(userService.users[r.value.id], identifier)
    {
      var found;
      if IsEmail(identifier) {
        found := userService.FindByEmail(identifier);
      } else {
        found := userService.FindByUsername(identifier);
      }
      if found.None? {
        return Err(InvalidCredentials);
      }
      var user := found.value;
      forall id | id in userService.users && Identifies(userService.users[id], identifier)
        ensures id == user.id
      {
        IdentifiesAtMostOne(userService.users, identifier, id, user.id);
      }
      if !user.isActive {
        return Err(AccountDisabled);
      }
      if !passwordMatches(password, user.password) {
        return Err(InvalidCredentials);
      }
      r := Ok(WithoutPassword(user));
    }

    /**
     * `generateTokens`: signs the claims, hex-encodes the random bytes and overwrites the
     * account's refresh slot with them. The new token then has exactly one holder and every
     * earlier token of that account has none.
     */
    method GenerateTokens(user: PublicUser, random: seq<byte>, now: int) returns (tokens: TokenPair)
      requires Valid()
      requires |random| == RefreshTokenBytes
      requires TokenHolders(userService.users, Encode(random)) == {}
      modifies userService
      ensures Valid()
      ensures tokens == IssuedTokens(jwt, user, Encode(random), now)
      ensures IsRefreshToken(tokens.refreshToken)
      ensures userService.users == WithRefreshToken(old(userService.users), user.id, tokens.refreshToken)
      ensures userService.ratings == old(userService.ratings) && userService.nextUserId == old(userService.nextUserId)
      ensures TokenHolders(userService.users, tokens.refreshToken) ==
        (if user.id in old(userService.users) then {user.id} else {})
      ensures forall other :: other != tokens.refreshToken ==>
        TokenHolders(userService.users, other) == TokenHolders(old(userService.users), other) - {user.id}
    {
      var payload := AccessPayload(user, now);
      var accessToken := jwt.signer.sign(payload, jwt.secret);
      var refreshToken := Encode(random);
      Rotation(userService.users, user.id, refreshToken);
      userService.SaveRefreshToken(user.id, refreshToken);
      tokens := TokenPair(accessToken, refreshToken, TokenType, AccessTokenLifetime, Summary(user));
    }

    /** `register`: a pass-through to `create`. */
    method Register(dto: CreateUserDto, hashedPassword: string) returns (r: Result<RegisterResult, Directory.ServiceError>)
      requires Valid()
      modifies userService
      ensures Valid()
      ensures r.Err? <==>
        exists id :: id in old(userService.users) &&
          (old(userService.users)[id].username == dto.username || old(userService.users)[id].email == dto.email)
      ensures r.Err? ==>
        && userService.users == old(userService.users)
        && userService.ratings == old(userService.ratings)
        && userService.nextUserId == old(userService.nextUserId)
      ensures r.Err? ==> r.error == Directory.UsernameExists || r.error == Directory.EmailExists
      ensures r == Err(Directory.UsernameExists) ==>
        exists id :: id in old(userService.users) && old(userService.users)[id].username == dto.username
      ensures r == Err(Directory.EmailExists) ==>
        exists id :: id in old(userService.users) && old(userService.users)[id].email == dto.email &&
          old(userService.users)[id].username != dto.username
      ensures
        ((exists id :: id in old(userService.users) && old(userService.users)[id].username == dto.username) &&
         (forall id :: id in old(userService.users) ==> old(userService.users)[id].email != dto.email))
        ==> r == Err(Directory.UsernameExists)
      ensures
        ((exists id :: id in old(userService.users) && old(userService.users)[id].email == dto.email) &&
         (forall id :: id in old(userService.users) ==> old(userService.users)[id].username != dto.username))
        ==> r == Err(Directory.EmailExists)
      ensures r.Ok? ==>
        && r.value == RegisterResult(true, "User registered successfully")
        && var id := old(userService.nextUserId);
           && userService.users == old(userService.users)[id := NewUser(id, dto, hashedPassword)]
           && userService.ratings == old(userService.ratings) + Directory.SeedRatings(id, dto.elo)
           && userService.nextUserId == id + 1
    {
      var created := userService.Create(dto, hashedPassword);
      if created.Err? {
        return Err(created.error);
      }
      r := Ok(RegisterResult(true, "User registered successfully"));
    }

    /** `login`: `validateUser`, then `generateTokens` for the validated account. */
    method Login(identifier: string, password: string, random: seq<byte>, now: int)
      returns (r: Result<SessionResult, AuthError>)
      requires Valid()
      requires |random| == RefreshTokenBytes
      requires TokenHolders(userService.users, Encode(random)) == {}
      modifies userService
      ensures Valid()
      ensures userService.ratings == old(userService.ratings) && userService.nextUserId == old(userService.nextUserId)
      ensures r.Err? ==> userService.users == old(userService.users)
      ensures r.Ok? || r == Err(InvalidCredentials) || r == Err(AccountDisabled)
      ensures r == Err(AccountDisabled) <==> DisabledMatch(old(userService.users), identifier)
      ensures r.Ok? <==> AcceptedMatch(old(userService.users), identifier, password, passwordMatches)
      ensures r.Ok? ==>
        var id := r.value.tokens.user.id;
        && id in old(userService.users)
        && Identifies(old(userService.users)[id], identifier)
        && r.value == SessionResult(true, "Login successful",
             IssuedTokens(jwt, WithoutPassword(old(userService.users)[id]), Encode(random), now))
        && userService.users == WithRefreshToken(old(userService.users), id, Encode(random))
    {
      var validated := ValidateUser(identifier, password);
      if validated.Err? {
        return Err(validated.error);
      }
      var tokens := GenerateTokens(validated.value, random, now);
      r := Ok(SessionResult(true, "Login successful", tokens));
    }

    /**
     * `refreshToken`: the account holding the presented token, if active, gets a new pair;
     * the presented token is overwritten and matches no account afterwards.
     */
    method RefreshToken(presented: Option<string>, random: seq<byte>, now: int)
      returns (r: Result<SessionResult, AuthError>)
      requires Valid()
      requires |random| == RefreshTokenBytes
      requires TokenHolders(userService.users, Encode(random)) == {}
      modifies userService
      ensures Valid()
      ensures userService.ratings == old(userService.ratings) && userService.nextUserId == old(userService.nextUserId)
      ensures r.Err? ==> r.error == InvalidRefreshToken && userService.users == old(userService.users)
      ensures r.Ok? <==>
        exists id :: id in RefreshCandidates(old(userService.users), presented) && old(userService.users)[id].isActive
      ensures r.Ok? ==>
        var id := r.value.tokens.user.id;
        && id in RefreshCandidates(old(userService.users), presented)
        && old(userService.users)[id].isActive
        && r.value == SessionResult(true, "Token refreshed successfully",
             IssuedTokens(jwt, WithoutPassword(old(userService.users)[id]), Encode(random), now))
        && userService.users == WithRefreshToken(old(userService.users), id, Encode(random))
        && TokenHolders(userService.users, presented.value) == {}
    {
      if presented.None? {
        return Err(InvalidRefreshToken);
      }
      var found := userService.FindByRefreshToken(presented.value);
      if found.Some? {
        forall id | id in TokenHolders(userService.users, presented.value) ensures id == found.value.id {
          AtMostOneHolder(userService.users, presented.value, id, found.value.id);
        }
      }
      if found.None? || !found.value.isActive {
        return Err(InvalidRefreshToken);
      }
      var tokens := GenerateTokens(WithoutPassword(found.value), random, now);
      r := Ok(SessionResult(true, "Token refreshed successfully", tokens));
    }

    /** `getUserInfo`: the caller's id, username and email, looked up by the subject of the request identity. */
    method GetUserInfo(principal: Option<RequestUser>) returns (r: Result<UserInfo, AuthError>)
      requires Valid()
      ensures principal.None? || principal.value.sub == 0 ==> r == Err(MissingSubject)
      ensures principal.Some? && principal.value.sub != 0 && principal.value.sub !in userService.users ==>
        r == Err(UserNotFound)
      ensures principal.Some? && principal.value.sub in userService.users && principal.value.sub != 0 ==>
        r == Ok(UserInfo(true, Summary(WithoutPassword(userService.users[principal.value.sub]))))
    {
      // `!userId` also refuses the id 0
      if principal.None? || principal.value.sub == 0 {
        return Err(MissingSubject);
      }
      var user := userService.FindById(principal.value.sub);
      if user.None? {
        return Err(UserNotFound);
      }
      r := Ok(UserInfo(true, Summary(WithoutPassword(user.value))));
    }
  }

  /**
   * A session's life on a fresh store: register, log in (refresh token A), refresh with A
   * (token B). Replaying A is then refused, and B is still accepted.
   */
  method RotationScenario(
    jwt: JwtConfig, passwordMatches: (string, string) -> bool,
    dto: CreateUserDto, hashedPassword: string,
    a: seq<byte>, b: seq<byte>, c: seq<byte>, now: int)
    returns (login: Result<SessionResult, AuthError>, replay: Result<SessionResult, AuthError>,
             second: Result<SessionResult, AuthError>)
    requires |a| == RefreshTokenBytes && |b| == RefreshTokenBytes && |c| == RefreshTokenBytes
    requires a != b && b != c
    requires !IsEmail(dto.username)
    requires passwordMatches(dto.password, hashedPassword)
    ensures login.Ok? && login.value.tokens.refreshToken == Encode(a)
    ensures replay == Err(InvalidRefreshToken)
    ensures second.Ok? && second.value.tokens.user == login.value.tokens.user
    ensures second.value.tokens.refreshToken == Encode(c)
  {
    var directory := new Directory.UserService();
    var auth := new AuthService(directory, jwt, passwordMatches);
    var registered := auth.Register(dto, hashedPassword);
    assert registered.Ok?;
    ghost var id := 1;
    assert directory.users == map[id := NewUser(id, dto, hashedPassword)];
    assert AcceptedMatch(directory.users, dto.username, dto.password, passwordMatches) by {
      assert Identifies(directory.users[id], dto.username);
    }
    login := auth.Login(dto.username, dto.password, a, now);
    assert login.value.tokens.user.id == id;
    assert directory.users.Keys == {id};
    assert directory.users[id].refreshToken == Some(Encode(a));
    if Encode(a) == Encode(b) {
      EncodeInjective(a, b);
    }
    assert TokenHolders(directory.users, Encode(b)) == {};
    assert id in RefreshCandidates(directory.users, Some(Encode(a)));
    var first := auth.RefreshToken(Some(Encode(a)), b, now);
    assert first.Ok?;
    assert first.value.tokens.user.id == id;
    assert directory.users[id].refreshToken == Some(Encode(b));
    if Encode(b) == Encode(c) {
      EncodeInjective(b, c);
    }
    assert TokenHolders(directory.users, Encode(c)) == {};
    replay := auth.RefreshToken(Some(Encode(a)), c, now);
    assert id in RefreshCandidates(directory.users, Some(Encode(b)));
    second := auth.RefreshToken(Some(Encode(b)), c, now);
  }
}
