/**
 * One rating row per (user, game type): counters, the current rating and the peak rating,
 * with the column defaults and the two derived getters `winRate` and `colorBalance`.
 */
module UserRatingEntity {

  /** `GameType`, in declaration order. */
  datatype GameType = Bullet | Blitz | Rapid | Classical {
    function Value(): string {
      match this
      case Bullet => "bullet"
      case Blitz => "blitz"
      case Rapid => "rapid"
      case Classical => "classical"
    }
  }

  /** `Object.values(GameType)`. */
  const AllGameTypes: seq<GameType> := [Bullet, Blitz, Rapid, Classical]

  /** Every game type is listed, exactly once. */
  lemma AllGameTypesEnumerates()
    ensures |AllGameTypes| == 4
    ensures forall g: GameType :: g in AllGameTypes
    ensures forall i, j | 0 <= i < j < |AllGameTypes| :: AllGameTypes[i] != AllGameTypes[j]
  {
    forall g: GameType ensures g in AllGameTypes {
      match g
      case Bullet => assert AllGameTypes[0] == g;
      case Blitz => assert AllGameTypes[1] == g;
      case Rapid => assert AllGameTypes[2] == g;
      case Classical => assert AllGameTypes[3] == g;
    }
  }

  /** The unique index over (userId, gameType) is the key of the rating table. */
  type RatingKey = (int, GameType)

  datatype UserRating = UserRating(
    userId: int,
    gameType: GameType,
    whiteGames: int,
    blackGames: int,
    rating: int,
    gamesPlayed: int,
    wins: int,
    losses: int,
    draws: int,
    peakRating: int)
  {
    function Key(): RatingKey { (userId, gameType) }
  }

  /** The column default of `rating` and `peakRating`. */
  const DefaultRating := 1200

  /** A row inserted with the given rating and peak; every counter takes its column default 0. */
  function NewRow(userId: int, gameType: GameType, rating: int, peakRating: int): (r: UserRating)
    ensures r.Key() == (userId, gameType)
    ensures r.rating == rating && r.peakRating == peakRating
    ensures r.whiteGames == r.blackGames == r.gamesPlayed == r.wins == r.losses == r.draws == 0
  {
    UserRating(userId, gameType, 0, 0, rating, 0, 0, 0, 0, peakRating)
  }

  /** A row with every column at its default. */
  function DefaultRow(userId: int, gameType: GameType): (r: UserRating)
    ensures WellFormed(r)
    ensures r.Key() == (userId, gameType) && r.rating == r.peakRating == DefaultRating
  {
    NewRow(userId, gameType, DefaultRating, DefaultRating)
  }

  /**
   * What every stored row satisfies: counters are non-negative, every game played is
   * exactly one win, loss or draw, and the peak is never below the current rating.
   */
  predicate WellFormed(r: UserRating) {
    && r.whiteGames >= 0 && r.blackGames >= 0
    && r.wins >= 0 && r.losses >= 0 && r.draws >= 0
    && r.wins + r.losses + r.draws == r.gamesPlayed
    && r.rating <= r.peakRating
  }

  /**
   * `winRate`: the percentage of wins rounded half up, 0 when no game was played.
   * The rounding is done on exact rationals.
   */
  function WinRate(r: UserRating): (p: int)
    ensures r.gamesPlayed <= 0 ==> p == 0
    ensures r.gamesPlayed > 0 ==>
      2 * r.gamesPlayed * p - r.gamesPlayed <= 200 * r.wins < 2 * r.gamesPlayed * p + r.gamesPlayed
    ensures 0 <= r.wins <= r.gamesPlayed ==> 0 <= p <= 100
  {
    if r.gamesPlayed > 0 then
      var g := r.gamesPlayed;
      var p := (200 * r.wins + g) / (2 * g);
      RoundingBounds(200 * r.wins + g, 2 * g);
      if 0 <= r.wins <= g then
        PercentInRange(r.wins, g, p);
        p
      else
        p
    else 0
  }

  /** Floor division leaves a remainder below the divisor. */
  lemma RoundingBounds(n: int, d: int)
    requires d > 0
    ensures (n / d) * d <= n < (n / d) * d + d
  {
  }

  /** A rounded percentage of at most `g` wins out of `g` games lies in 0..100. */
  lemma PercentInRange(w: int, g: int, p: int)
    requires 0 <= w <= g && g > 0
    requires 2 * g * p - g <= 200 * w < 2 * g * p + g
    ensures 0 <= p <= 100
  {
    Distribute(g, p);
    NonNegativeFactor(g, 2 * p + 1);
    NonNegativeFactor(g, 201 - 2 * p);
  }

  lemma Distribute(g: int, p: int)
    ensures g * (2 * p + 1) == 2 * g * p + g
    ensures g * (201 - 2 * p) == 201 * g - 2 * g * p
  {
  }

  lemma NonNegativeFactor(a: int, b: int)
    requires a > 0 && a * b >= 0
    ensures b >= 0
  {
  }

  /** An exact quotient `num / den`. */
  datatype Fraction = Fraction(num: int, den: int)

  /**
   * `colorBalance`: (white - black) / (white + black), 0 when no coloured game is recorded.
   * The quotient is kept as an exact fraction.
   */
  function ColorBalance(r: UserRating): (b: Fraction)
    ensures b.den != 0
    ensures r.whiteGames + r.blackGames == 0 ==> b == Fraction(0, 1)
    ensures r.whiteGames + r.blackGames != 0 ==>
      b.num * (r.whiteGames + r.blackGames) == (r.whiteGames - r.blackGames) * b.den
    ensures r.whiteGames >= 0 && r.blackGames >= 0 ==>
      && b.den > 0
      && -b.den <= b.num <= b.den
      && (b.num > 0 <==> r.whiteGames > r.blackGames)
      && (b.num == 0 <==> r.whiteGames == r.blackGames)
  {
    var total := r.whiteGames + r.blackGames;
    if total == 0 then Fraction(0, 1) else Fraction(r.whiteGames - r.blackGames, total)
  }
}
