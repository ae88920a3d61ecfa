/** The body of a rating update (`UpdateEloDto`): a game result, a colour and a new rating. */
module UpdateEloDto {
  import opened Wrappers

  /** `@IsEnum(['win', 'loss', 'draw'])`. */
  datatype GameResult = Win | Loss | Draw {
    function Value(): string {
      match this
      case Win => "win"
      case Loss => "loss"
      case Draw => "draw"
    }
  }

  /** `@IsEnum(['white', 'black'])`. */
  datatype PlayerColor = White | Black {
    function Value(): string {
      match this
      case White => "white"
      case Black => "black"
    }
  }

  function ParseGameResult(s: string): (r: Option<GameResult>)
    ensures r.Some? <==> s == "win" || s == "loss" || s == "draw"
    ensures r.Some? ==> r.value.Value() == s
  {
    if s == "win" then Some(Win)
    else if s == "loss" then Some(Loss)
    else if s == "draw" then Some(Draw)
    else None
  }

  function ParseColor(s: string): (r: Option<PlayerColor>)
    ensures r.Some? <==> s == "white" || s == "black"
    ensures r.Some? ==> r.value.Value() == s
  {
    if s == "white" then Some(White)
    else if s == "black" then Some(Black)
    else None
  }

  /** The request body as received; `newRating` is any number (`@IsNumber()` with no bound). */
  datatype UpdateEloRequest = UpdateEloRequest(newRating: int, gameResult: string, color: string)

  datatype UpdateEloDto = UpdateEloDto(newRating: int, gameResult: GameResult, color: PlayerColor)

  datatype Field = GameResultField | ColorField

  function Validate(req: UpdateEloRequest): (r: Result<UpdateEloDto, set<Field>>)
    ensures r.Ok? <==> ParseGameResult(req.gameResult).Some? && ParseColor(req.color).Some?
    ensures r.Ok? ==>
      && r.value.newRating == req.newRating
      && r.value.gameResult.Value() == req.gameResult
      && r.value.color.Value() == req.color
    ensures r.Err? ==>
      && r.error != {}
      && (GameResultField in r.error <==> ParseGameResult(req.gameResult).None?)
      && (ColorField in r.error <==> ParseColor(req.color).None?)
  {
    match (ParseGameResult(req.gameResult), ParseColor(req.color))
    case (Some(result), Some(color)) => Ok(UpdateEloDto(req.newRating, result, color))
    case (result, color) =>
      Err((if result.None? then {GameResultField} else {}) + (if color.None? then {ColorField} else {}))
  }

  lemma EnumRoundTrips(result: GameResult, color: PlayerColor)
    ensures ParseGameResult(result.Value()) == Some(result)
    ensures ParseColor(color.Value()) == Some(color)
  {
  }
}
