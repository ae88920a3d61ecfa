/**
 * The `User` record, the directory's uniqueness constraints, the column defaults and the
 * single nullable refresh-token slot.
 */
module UserEntity {
  import opened Wrappers
  import opened CreateUserDto

  /** A stored account. `password` holds the bcrypt hash; `refreshToken` is one slot, not a list. */
  datatype User = User(
    id: int,
    email: string,
    username: string,
    password: string,
    role: UserRole,
    isActive: bool,
    refreshToken: Option<string>)

  /** A `User` with the `password` field removed (`Omit<User, 'password'>`). */
  datatype PublicUser = PublicUser(
    id: int,
    email: string,
    username: string,
    role: UserRole,
    isActive: bool,
    refreshToken: Option<string>)

  /** Drops the password hash and keeps every other field. */
  function WithoutPassword(u: User): (p: PublicUser)
    ensures WithPassword(p, u.password) == u
  {
    PublicUser(u.id, u.email, u.username, u.role, u.isActive, u.refreshToken)
  }

  /** The inverse of `WithoutPassword`: puts a hash back. */
  function WithPassword(p: PublicUser, hash: string): (u: User)
    ensures u.password == hash
  {
    User(p.id, p.email, p.username, hash, p.role, p.isActive, p.refreshToken)
  }

  /** The stripped record depends on nothing but the fields other than `password`. */
  lemma WithoutPasswordForgetsOnlyPassword(u: User, hash: string)
    ensures WithoutPassword(u.(password := hash)) == WithoutPassword(u)
    ensures WithoutPassword(WithPassword(WithoutPassword(u), hash)) == WithoutPassword(u)
  {
  }

  /**
   * The row `create` saves: the request's fields, the given hash, role `Standard` when the
   * request has none, active, and an empty refresh slot.
   */
  function NewUser(id: int, dto: CreateUserDto, hashedPassword: string): (u: User)
    ensures u.id == id && u.email == dto.email && u.username == dto.username
    ensures u.password == hashedPassword
    ensures u.role == (if dto.role.Some? then dto.role.value else Standard)
    ensures u.isActive
    ensures u.refreshToken.None?
  {
    User(id, dto.email, dto.username, hashedPassword,
         if dto.role.Some? then dto.role.value else Standard, true, None)
  }

  /** The user table, keyed by primary key. */
  type Users = map<int, User>

  /** Each row is stored under its own id. */
  ghost predicate KeyedById(users: Users) {
    forall id :: id in users ==> users[id].id == id
  }

  /** `email` is a unique column. */
  ghost predicate UniqueEmails(users: Users) {
    forall i, j :: i in users && j in users && users[i].email == users[j].email ==> i == j
  }

  /** `username` is a unique column. */
  ghost predicate UniqueUsernames(users: Users) {
    forall i, j :: i in users && j in users && users[i].username == users[j].username ==> i == j
  }

  /**
   * No two accounts hold the same refresh token. This is not a column constraint: it holds
   * because every token written is fresh.
   */
  ghost predicate UniqueRefreshTokens(users: Users) {
    forall i, j ::
      (i in users && j in users && users[i].refreshToken.Some? &&
       users[i].refreshToken == users[j].refreshToken) ==> i == j
  }

  /** The accounts whose refresh slot equals `token` exactly. */
  function TokenHolders(users: Users, token: string): (holders: set<int>)
    ensures forall id :: id in holders <==> id in users && users[id].refreshToken == Some(token)
  {
    set id | id in users && users[id].refreshToken == Some(token)
  }

  /** With unique tokens, a token has at most one holder. */
  lemma AtMostOneHolder(users: Users, token: string, a: int, b: int)
    requires UniqueRefreshTokens(users)
    requires a in TokenHolders(users, token) && b in TokenHolders(users, token)
    ensures a == b
  {
    assert users[a].refreshToken == Some(token) == users[b].refreshToken;
  }

  /** `saveRefreshToken`'s write: only that account's slot changes; an unknown id changes nothing. */
  function WithRefreshToken(users: Users, userId: int, token: string): (after: Users)
    ensures after.Keys == users.Keys
    ensures forall id :: id in users && id != userId ==> after[id] == users[id]
    ensures userId in users ==> after[userId] == users[userId].(refreshToken := Some(token))
  {
    if userId in users then users[userId := users[userId].(refreshToken := Some(token))] else users
  }

  /**
   * Rotation: writing a fresh token into one slot leaves that account its only holder,
   * and every other token loses that account as a holder and gains none.
   */
  lemma Rotation(users: Users, userId: int, token: string)
    requires UniqueRefreshTokens(users)
    requires TokenHolders(users, token) == {}
    ensures UniqueRefreshTokens(WithRefreshToken(users, userId, token))
    ensures TokenHolders(WithRefreshToken(users, userId, token), token) ==
      (if userId in users then {userId} else {})
    ensures forall other :: other != token ==>
      TokenHolders(WithRefreshToken(users, userId, token), other) == TokenHolders(users, other) - {userId}
  {
    var after := WithRefreshToken(users, userId, token);
    forall i, j | i in after && j in after && after[i].refreshToken.Some? &&
      after[i].refreshToken == after[j].refreshToken
      ensures i == j
    {
      if i == userId || j == userId {
        assert i !in TokenHolders(users, token) && j !in TokenHolders(users, token);
      }
    }
  }

  /** Writing a slot keeps every other column, so the uniqueness constraints still hold. */
  lemma SlotWriteKeepsConstraints(users: Users, userId: int, token: string)
    requires KeyedById(users) && UniqueEmails(users) && UniqueUsernames(users)
    ensures var after := WithRefreshToken(users, userId, token);
      KeyedById(after) && UniqueEmails(after) && UniqueUsernames(after)
  {
    var after := WithRefreshToken(users, userId, token);
    assert forall id :: id in after ==>
      after[id].id == users[id].id && after[id].email == users[id].email &&
      after[id].username == users[id].username;
  }
}
