/**
 * The user directory: the user table and the rating table as maps, with registration,
 * the lookups, the rating bookkeeping and the refresh-slot operations.
 */
module UserService {
  import opened Wrappers
  import opened CreateUserDto
  import opened UpdateEloDto
  import opened UserEntity
  import opened UserRatingEntity

  datatype ServiceError =
    | UsernameExists                          // ConflictException 'Username already exists'
    | EmailExists                             // ConflictException 'Email already exists'
    | RatingNotFound(userId: int, gameType: GameType)  // NotFoundException
    | UnknownUser(userId: int)                // the rating table's foreign key to users rejects the insert

  /** The rows `create` inserts: one per game type, with rating and peak set to `elo`. */
  function SeedRatings(userId: int, elo: int): (rows: map<RatingKey, UserRating>)
    ensures forall g: GameType :: (userId, g) in rows && rows[(userId, g)] == NewRow(userId, g, elo, elo)
    ensures forall k :: k in rows ==> k.0 == userId
  {
    AllGameTypesEnumerates();
    map g | g in AllGameTypes :: (userId, g) := NewRow(userId, g, elo, elo)
  }

  /** Four rows, and when `elo` passed validation every seeded rating and peak lies in 800..2000. */
  lemma SeedRatingsShape(userId: int, dto: CreateUserDto)
    requires MinElo <= dto.elo <= MaxElo
    ensures |SeedRatings(userId, dto.elo)| == 4
    ensures forall k :: k in SeedRatings(userId, dto.elo) ==>
      var row := SeedRatings(userId, dto.elo)[k];
      WellFormed(row) && MinElo <= row.rating == row.peakRating <= MaxElo
  {
    var rows := SeedRatings(userId, dto.elo);
    assert rows.Keys == {(userId, Bullet), (userId, Blitz), (userId, Rapid), (userId, Classical)} by {
      forall k | k in rows ensures k in {(userId, Bullet), (userId, Blitz), (userId, Rapid), (userId, Classical)} {
        assert k == (userId, k.1);
      }
    }
    assert |rows.Keys| == 4;
  }

  function Count(b: bool): int { if b then 1 else 0 }

  /**
   * `updateRating`'s change to a row: one more game, one more of the result's counter and of
   * the colour's counter, the new rating, and the peak raised to it when exceeded.
   */
  function RecordGame(row: UserRating, newRating: int, result: GameResult, color: PlayerColor): (after: UserRating)
    ensures after.Key() == row.Key()
    ensures after.gamesPlayed == row.gamesPlayed + 1
    ensures after.wins + after.losses + after.draws == row.wins + row.losses + row.draws + 1
    ensures result == Win ==> after.wins == row.wins + 1 && after.losses == row.losses && after.draws == row.draws
    ensures result == Loss ==> after.losses == row.losses + 1 && after.wins == row.wins && after.draws == row.draws
    ensures result == Draw ==> after.draws == row.draws + 1 && after.wins == row.wins && after.losses == row.losses
    ensures color == White ==> after.whiteGames == row.whiteGames + 1 && after.blackGames == row.blackGames
    ensures color == Black ==> after.blackGames == row.blackGames + 1 && after.whiteGames == row.whiteGames
    ensures after.rating == newRating
    ensures after.peakRating >= row.peakRating && after.peakRating >= newRating
    ensures after.peakRating == row.peakRating || after.peakRating == newRating
    ensures WellFormed(row) ==> WellFormed(after)
  {
    row.(whiteGames := row.whiteGames + Count(color == White),
         blackGames := row.blackGames + Count(color == Black),
         gamesPlayed := row.gamesPlayed + 1,
         wins := row.wins + Count(result == Win),
         losses := row.losses + Count(result == Loss),
         draws := row.draws + Count(result == Draw),
         rating := newRating,
         peakRating := if newRating > row.peakRating then newRating else row.peakRating)
  }

  /** `updateColorHistory`'s change to a row: the chosen colour counter goes up by one, nothing else moves. */
  function RecordColor(row: UserRating, color: PlayerColor): (after: UserRating)
    ensures after.(whiteGames := row.whiteGames, blackGames := row.blackGames) == row
    ensures after.whiteGames == row.whiteGames + (if color == White then 1 else 0)
    ensures after.blackGames == row.blackGames + (if color == Black then 1 else 0)
    ensures WellFormed(row) ==> WellFormed(after)
  {
    match color
    case White => row.(whiteGames := row.whiteGames + 1)
    case Black => row.(blackGames := row.blackGames + 1)
  }

  /** The rating of the last row for `gameType` in `rows`, if any (later rows overwrite earlier ones). */
  function LastRating(rows: seq<UserRating>, gameType: GameType): Option<int>
  {
    if rows == [] then None
    else if rows[|rows| - 1].gameType == gameType then Some(rows[|rows| - 1].rating)
    else LastRating(rows[..|rows| - 1], gameType)
  }

  /** The rating `formatUserRatings` reports for a game type: the stored one unless missing or 0. */
  function DisplayedRating(rows: Option<seq<UserRating>>, gameType: GameType): int
  {
    if rows.None? then DefaultRating
    else match LastRating(rows.value, gameType)
      case Some(v) => if v != 0 then v else DefaultRating
      case None => DefaultRating
  }

  /** When exactly one row has the game type, as the unique index guarantees, its rating is the one found. */
  lemma {:induction false} LastRatingOfUniqueRow(rows: seq<UserRating>, i: int)
    requires 0 <= i < |rows|
    requires forall j | 0 <= j < |rows| && j != i :: rows[j].gameType != rows[i].gameType
    ensures LastRating(rows, rows[i].gameType) == Some(rows[i].rating)
  {
    if i != |rows| - 1 {
      var prefix := rows[..|rows| - 1];
      assert prefix[i] == rows[i];
      forall j | 0 <= j < |prefix| && j != i ensures prefix[j].gameType != prefix[i].gameType {
        assert prefix[j] == rows[j];
      }
      LastRatingOfUniqueRow(prefix, i);
    }
  }

  /** A game type with no row is reported as 1200. */
  lemma {:induction false} LastRatingOfMissingType(rows: seq<UserRating>, gameType: GameType)
    requires forall j | 0 <= j < |rows| :: rows[j].gameType != gameType
    ensures LastRating(rows, gameType).None?
  {
    if rows != [] {
      LastRatingOfMissingType(rows[..|rows| - 1], gameType);
    }
  }

  class UserService {
    var users: Users
    var ratings: map<RatingKey, UserRating>
    /** The next value of the auto-incremented primary key. */
    var nextUserId: int

    ghost predicate Valid()
      reads this
    {
      && KeyedById(users) && UniqueEmails(users) && UniqueUsernames(users)
      && 1 <= nextUserId
      && (forall id :: id in users ==> 1 <= id < nextUserId)
      && (forall k :: k in ratings ==> ratings[k].Key() == k && k.0 in users && WellFormed(ratings[k]))
    }

    constructor ()
      ensures Valid()
      ensures users == map[] && ratings == map[] && nextUserId == 1
    {
      users := map[];
      ratings := map[];
      nextUserId := 1;
    }

    /**
     * `create`: rejects a username or email already taken, otherwise saves the new account,
     * seeds one rating row per game type and returns the account without its password.
     * `hashedPassword` is bcrypt's output for the request's password.
     */
    method Create(dto: CreateUserDto, hashedPassword: string) returns (r: Result<PublicUser, ServiceError>)
      requires Valid()
      modifies this
      ensures Valid()
      ensures r.Err? <==>
        exists id :: id in old(users) && (old(users)[id].username == dto.username || old(users)[id].email == dto.email)
      ensures r.Err? ==> users == old(users) && ratings == old(ratings) && nextUserId == old(nextUserId)
      ensures r.Err? ==> r.error == UsernameExists || r.error == EmailExists
      ensures r == Err(UsernameExists) ==> exists id :: id in old(users) && old(users)[id].username == dto.username
      ensures r == Err(EmailExists) ==>
        exists id :: id in old(users) && old(users)[id].email == dto.email && old(users)[id].username != dto.username
      ensures
        ((exists id :: id in old(users) && old(users)[id].username == dto.username) &&
         (forall id :: id in old(users) ==> old(users)[id].email != dto.email))
        ==> r == Err(UsernameExists)
      ensures
        ((exists id :: id in old(users) && old(users)[id].email == dto.email) &&
         (forall id :: id in old(users) ==> old(users)[id].username != dto.username))
        ==> r == Err(EmailExists)
      ensures r.Ok? ==>
        var id := old(nextUserId);
        && id !in old(users)
        && users == old(users)[id := NewUser(id, dto, hashedPassword)]
        && ratings == old(ratings) + SeedRatings(id, dto.elo)
        && nextUserId == id + 1
        && r.value == WithoutPassword(users[id])
    {
      if exists id :: id in users && (users[id].username == dto.username || users[id].email == dto.email) {
        // findOne over [{ username }, { email }] returns one matching row, which one is unspecified
        var id :| id in users && (users[id].username == dto.username || users[id].email == dto.email);
        if users[id].username == dto.username {
          return Err(UsernameExists);
        }
        if users[id].email == dto.email {
          return Err(EmailExists);
        }
      }
      var id := nextUserId;
      var user := NewUser(id, dto, hashedPassword);
      users := users[id := user];
      nextUserId := nextUserId + 1;
      ratings := ratings + SeedRatings(id, dto.elo);
      r := Ok(WithoutPassword(user));
    }

    /** `findByEmail` / `findByEmailWithRatings`. */
    method FindByEmail(email: string) returns (found: Option<User>)
      requires Valid()
      ensures found.None? <==> forall id :: id in users ==> users[id].email != email
      ensures found.Some? ==> found.value.id in users && users[found.value.id] == found.value && found.value.email == email
    {
      if exists id :: id in users && users[id].email == email {
        var id :| id in users && users[id].email == email;
        found := Some(users[id]);
      } else {
        found := None;
      }
    }

    /** `findByUsername` / `findByUsernameWithRatings`. */
    method FindByUsername(username: string) returns (found: Option<User>)
      requires Valid()
      ensures found.None? <==> forall id :: id in users ==> users[id].username != username
      ensures found.Some? ==>
        found.value.id in users && users[found.value.id] == found.value && found.value.username == username
    {
      if exists id :: id in users && users[id].username == username {
        var id :| id in users && users[id].username == username;
        found := Some(users[id]);
      } else {
        found := None;
      }
    }

    /** `findById` / `findByIdWithRatings`. */
    method FindById(userId: int) returns (found: Option<User>)
      requires Valid()
      ensures found.None? <==> userId !in users
      ensures found.Some? ==> found.value.id == userId && users[userId] == found.value
    {
      found := if userId in users then Some(users[userId]) else None;
    }

    /** `getUserRating`: the row for (userId, gameType), if any. */
    method GetUserRating(userId: int, gameType: GameType) returns (found: Option<UserRating>)
      requires Valid()
      ensures found.None? <==> (userId, gameType) !in ratings
      ensures found.Some? ==>
        && found.value.userId == userId && found.value.gameType == gameType
        && WellFormed(found.value) && ratings[(userId, gameType)] == found.value
    {
      found := if (userId, gameType) in ratings then Some(ratings[(userId, gameType)]) else None;
    }

    /**
     * `formatUserRatings`: a rating for every game type, taken from the user's loaded rows
     * (None when the relation was not loaded), 1200 where there is no row or the rating is 0.
     */
    static method FormatUserRatings(rows: Option<seq<UserRating>>) returns (formatted: map<GameType, int>)
      ensures forall g: GameType :: g in formatted && formatted[g] == DisplayedRating(rows, g)
    {
      formatted := map[];
      if rows.Some? {
        var list := rows.value;
        for i := 0 to |list|
          invariant forall g: GameType :: g in formatted <==> LastRating(list[..i], g).Some?
          invariant forall g: GameType :: g in formatted ==> formatted[g] == LastRating(list[..i], g).value
        {
          assert list[..i + 1][..i] == list[..i];
          formatted := formatted[list[i].gameType := list[i].rating];
        }
        assert list[..|list|] == list;
      }
      AllGameTypesEnumerates();
      for j := 0 to |AllGameTypes|
        invariant forall g: GameType :: g in AllGameTypes[..j] ==> g in formatted && formatted[g] == DisplayedRating(rows, g)
        invariant forall g: GameType :: g !in AllGameTypes[..j] ==>
          (g in formatted <==> rows.Some? && LastRating(rows.value, g).Some?) &&
          (g in formatted ==> formatted[g] == LastRating(rows.value, g).value)
      {
        var g := AllGameTypes[j];
        if g !in formatted || formatted[g] == 0 {
          formatted := formatted[g := DefaultRating];
        }
        assert forall h: GameType :: h in AllGameTypes[..j + 1] <==> h in AllGameTypes[..j] || h == g;
      }
      assert AllGameTypes[..|AllGameTypes|] == AllGameTypes;
    }

    /**
     * `updateRating`: a missing row is NotFound and nothing changes; otherwise the row records
     * the game (`RecordGame`) and is saved.
     */
    method UpdateRating(userId: int, gameType: GameType, newRating: int, gameResult: GameResult, color: PlayerColor)
      returns (r: Result<(), ServiceError>)
      requires Valid()
      modifies this
      ensures Valid()
      ensures users == old(users) && nextUserId == old(nextUserId)
      ensures (userId, gameType) !in old(ratings) ==>
        r == Err(RatingNotFound(userId, gameType)) && ratings == old(ratings)
      ensures (userId, gameType) in old(ratings) ==>
        r == Ok(()) &&
        ratings == old(ratings)[(userId, gameType) :=
          RecordGame(old(ratings)[(userId, gameType)], newRating, gameResult, color)]
    {
      var key := (userId, gameType);
      if key !in ratings {
        return Err(RatingNotFound(userId, gameType));
      }
      var row := ApplyGame(ratings[key], newRating, gameResult, color);
      ratings := ratings[key := row];
      r := Ok(());
    }

    /** The field increments of `updateRating` on the fetched row, in the order the service does them. */
    static method ApplyGame(row: UserRating, newRating: int, gameResult: GameResult, color: PlayerColor)
      returns (after: UserRating)
      ensures after == RecordGame(row, newRating, gameResult, color)
    {
      after := row;
      if color == White {
        after := after.(whiteGames := after.whiteGames + 1);
      } else {
        after := after.(blackGames := after.blackGames + 1);
      }
      after := after.(gamesPlayed := after.gamesPlayed + 1);
      match gameResult {
        case Win => after := after.(wins := after.wins + 1);
        case Loss => after := after.(losses := after.losses + 1);
        case Draw => after := after.(draws := after.draws + 1);
      }
      after := after.(rating := newRating);
      if newRating > after.peakRating {
        after := after.(peakRating := newRating);
      }
    }

    /**
     * `getColorBalance`: an existing row's balance; a missing row is first inserted with
     * every column at its default and the balance is 0.
     */
    method GetColorBalance(userId: int, gameType: GameType) returns (r: Result<Fraction, ServiceError>)
      requires Valid()
      modifies this
      ensures Valid()
      ensures users == old(users) && nextUserId == old(nextUserId)
      ensures (userId, gameType) in old(ratings) ==>
        ratings == old(ratings) && r == Ok(ColorBalance(old(ratings)[(userId, gameType)]))
      ensures (userId, gameType) !in old(ratings) && userId in users ==>
        ratings == old(ratings)[(userId, gameType) := DefaultRow(userId, gameType)] && r == Ok(Fraction(0, 1))
      ensures (userId, gameType) !in old(ratings) && userId !in users ==>
        ratings == old(ratings) && r == Err(UnknownUser(userId))
    {
      var key := (userId, gameType);
      if key !in ratings {
        if userId !in users {
          return Err(UnknownUser(userId));
        }
        ratings := ratings[key := DefaultRow(userId, gameType)];
        return Ok(Fraction(0, 1));
      }
      var row := ratings[key];
      var totalGames := row.whiteGames + row.blackGames;
      r := Ok(if totalGames > 0 then Fraction(row.whiteGames - row.blackGames, totalGames) else Fraction(0, 1));
    }

    /**
     * `updateColorHistory`: a missing row is created with the defaults; then the chosen colour
     * counter goes up by one and the row is saved.
     */
    method UpdateColorHistory(userId: int, gameType: GameType, playerColor: PlayerColor)
      returns (r: Result<(), ServiceError>)
      requires Valid()
      modifies this
      ensures Valid()
      ensures users == old(users) && nextUserId == old(nextUserId)
      ensures (userId, gameType) in old(ratings) ==>
        r == Ok(()) &&
        ratings == old(ratings)[(userId, gameType) := RecordColor(old(ratings)[(userId, gameType)], playerColor)]
      ensures (userId, gameType) !in old(ratings) && userId in users ==>
        r == Ok(()) &&
        ratings == old(ratings)[(userId, gameType) := RecordColor(DefaultRow(userId, gameType), playerColor)]
      ensures (userId, gameType) !in old(ratings) && userId !in users ==>
        r == Err(UnknownUser(userId)) && ratings == old(ratings)
    {
      var key := (userId, gameType);
      var row;
      if key in ratings {
        row := ratings[key];
      } else {
        row := DefaultRow(userId, gameType);
      }
      ghost var before := row;
      if playerColor == White {
        row := row.(whiteGames := row.whiteGames + 1);
      } else {
        row := row.(blackGames := row.blackGames + 1);
      }
      assert row == RecordColor(before, playerColor);
      if key !in ratings && userId !in users {
        return Err(UnknownUser(userId));
      }
      ratings := ratings[key := row];
      r := Ok(());
    }

    /** `saveRefreshToken`: overwrites that account's single slot; an unknown id updates nothing. */
    method SaveRefreshToken(userId: int, refreshToken: string)
      requires Valid()
      modifies this
      ensures Valid()
      ensures users == WithRefreshToken(old(users), userId, refreshToken)
      ensures ratings == old(ratings) && nextUserId == old(nextUserId)
    {
      SlotWriteKeepsConstraints(users, userId, refreshToken);
      users := WithRefreshToken(users, userId, refreshToken);
    }

    /** `findByRefreshToken`: an account whose slot equals the token exactly, if there is one. */
    method FindByRefreshToken(refreshToken: string) returns (found: Option<User>)
      requires Valid()
      ensures found.None? <==> TokenHolders(users, refreshToken) == {}
      ensures found.Some? ==>
        found.value.id in TokenHolders(users, refreshToken) && users[found.value.id] == found.value
    {
      if exists id :: id in users && users[id].refreshToken == Some(refreshToken) {
        var id :| id in users && users[id].refreshToken == Some(refreshToken);
        found := Some(users[id]);
      } else {
        found := None;
      }
    }
  }

  /** The service's balance agrees with the entity's `colorBalance` on every stored row. */
  lemma ServiceBalanceIsEntityBalance(row: UserRating)
    requires WellFormed(row)
    ensures (if row.whiteGames + row.blackGames > 0
             then Fraction(row.whiteGames - row.blackGames, row.whiteGames + row.blackGames)
             else Fraction(0, 1)) == ColorBalance(row)
  {
  }
}
