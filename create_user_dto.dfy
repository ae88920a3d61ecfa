/**
 * The registration request (`CreateUserDto`) and the `UserRole` enumeration.
 * The declarative class-validator constraints become one validating function.
 */
module CreateUserDto {
  import opened Wrappers

  /** `UserRole`: `Admin` is sent as "admin", `Standard` as "user". */
  datatype UserRole = Admin | Standard {
    function Value(): string {
      match this
      case Admin => "admin"
      case Standard => "user"
    }
  }

  /** `@IsEnum(UserRole)`: only the two wire values are accepted. */
  function ParseRole(s: string): (r: Option<UserRole>)
    ensures r.Some? <==> s == "admin" || s == "user"
    ensures r.Some? ==> r.value.Value() == s
  {
    if s == "admin" then Some(Admin)
    else if s == "user" then Some(Standard)
    else None
  }

  lemma RoleRoundTrip(role: UserRole)
    ensures ParseRole(role.Value()) == Some(role)
  {
  }

  /** The request body as received (after JSON type checks). */
  datatype CreateUserRequest = CreateUserRequest(
    username: string,
    email: string,
    password: string,
    role: Option<string>,
    elo: int)

  /** A request that passed validation. */
  datatype CreateUserDto = CreateUserDto(
    username: string,
    email: string,
    password: string,
    role: Option<UserRole>,
    elo: int)

  /** The fields a validation failure can name. */
  datatype Field = UsernameField | EmailField | PasswordField | RoleField | EloField

  const MinUsernameLength := 3
  const MaxUsernameLength := 20
  const MinPasswordLength := 6
  const MaxPasswordLength := 50
  const MinElo := 800
  const MaxElo := 2000

  /** U+FE0E and U+FE0F, the text and emoji presentation selectors. */
  predicate IsVariationSelector(c: char) {
    c == '\U{FE0E}' || c == '\U{FE0F}'
  }

  /**
   * The length `@MinLength`/`@MaxLength` compare: one per character (a surrogate pair is
   * one character here), except that presentation selectors are not counted.
   */
  function CountedLength(s: string): (n: nat)
    ensures n <= |s|
  {
    if s == [] then 0
    else CountedLength(s[..|s| - 1]) + (if IsVariationSelector(s[|s| - 1]) then 0 else 1)
  }

  /** Text without presentation selectors is counted character by character. */
  lemma {:induction false} CountedLengthOfPlainText(s: string)
    requires forall k | 0 <= k < |s| :: !IsVariationSelector(s[k])
    ensures CountedLength(s) == |s|
  {
    if s != [] {
      var prefix := s[..|s| - 1];
      assert forall k | 0 <= k < |prefix| :: prefix[k] == s[k];
      CountedLengthOfPlainText(prefix);
    }
  }

  /** Each presentation selector shortens the counted length by one. */
  lemma CountedLengthSkipsSelector(s: string, c: char)
    requires IsVariationSelector(c)
    ensures CountedLength(s + [c]) == CountedLength(s)
  {
    assert (s + [c])[..|s + [c]| - 1] == s;
  }

  /** "ab" followed by U+FE0F counts as two characters, below the username minimum. */
  lemma ShortUsernameWithSelector()
    ensures CountedLength("ab" + ['\U{FE0F}']) == 2 < MinUsernameLength
  {
    CountedLengthOfPlainText("ab");
    CountedLengthSkipsSelector("ab", '\U{FE0F}');
  }

  /**
   * Validates a registration request. `isEmail` stands for class-validator's
   * `@IsEmail()` check, which is not part of this model.
   */
  function Validate(req: CreateUserRequest, isEmail: string -> bool): (r: Result<CreateUserDto, set<Field>>)
    ensures r.Ok? <==>
      && MinUsernameLength <= CountedLength(req.username) <= MaxUsernameLength
      && isEmail(req.email)
      && MinPasswordLength <= CountedLength(req.password) <= MaxPasswordLength
      && (req.role.None? || req.role.value == "admin" || req.role.value == "user")
      && MinElo <= req.elo <= MaxElo
    ensures r.Ok? ==>
      && r.value.username == req.username
      && r.value.email == req.email
      && r.value.password == req.password
      && r.value.elo == req.elo
      && (r.value.role.None? <==> req.role.None?)
      && (r.value.role.Some? ==> r.value.role.value.Value() == req.role.value)
    ensures r.Err? ==> r.error != {}
    ensures r.Err? ==> (UsernameField in r.error <==> !(MinUsernameLength <= CountedLength(req.username) <= MaxUsernameLength))
    ensures r.Err? ==> (EmailField in r.error <==> !isEmail(req.email))
    ensures r.Err? ==> (PasswordField in r.error <==> !(MinPasswordLength <= CountedLength(req.password) <= MaxPasswordLength))
    ensures r.Err? ==> (RoleField in r.error <==> req.role.Some? && req.role.value != "admin" && req.role.value != "user")
    ensures r.Err? ==> (EloField in r.error <==> !(MinElo <= req.elo <= MaxElo))
  {
    var role := if req.role.Some? then ParseRole(req.role.value) else None;
    var bad :=
      (if MinUsernameLength <= CountedLength(req.username) <= MaxUsernameLength then {} else {UsernameField}) +
      (if isEmail(req.email) then {} else {EmailField}) +
      (if MinPasswordLength <= CountedLength(req.password) <= MaxPasswordLength then {} else {PasswordField}) +
      (if req.role.None? || role.Some? then {} else {RoleField}) +
      (if MinElo <= req.elo <= MaxElo then {} else {EloField});
    if bad == {} then
      Ok(CreateUserDto(req.username, req.email, req.password, role, req.elo))
    else
      Err(bad)
  }
}
