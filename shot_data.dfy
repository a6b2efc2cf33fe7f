/** One shot event as a row of the combined shots table. */
module ShotData {
  import opened Wrappers

  /** The six categorical columns the sidebar filters on, in the order the
      script fills their missing values. */
  datatype Category = Team | Player | Game | Situation | BodyPart | Outcome
  // `Outcome` is the `result` column; the name avoids a clash with `Wrappers.Result`.

  const CATEGORIES: seq<Category> := [Team, Player, Game, Situation, BodyPart, Outcome]

  /** A row. `league` is always set (the loader writes it); the categorical
      columns may be missing in the CSV files; of the numeric columns only
      their presence matters to the filters. */
  datatype Shot = Shot(
    league: string,
    team: Option<string>,
    player: Option<string>,
    game: Option<string>,
    situation: Option<string>,
    bodyPart: Option<string>,
    result: Option<string>,
    locationX: Option<real>,
    locationY: Option<real>,
    xg: Option<real>)

  /** The value of a categorical column, `shot[c]`. */
  function Get(s: Shot, c: Category): Option<string>
  {
    match c
    case Team => s.team
    case Player => s.player
    case Game => s.game
    case Situation => s.situation
    case BodyPart => s.bodyPart
    case Outcome => s.result
  }

  /** Overwrites one categorical column of a row and nothing else. */
  function Set(s: Shot, c: Category, v: Option<string>): (r: Shot)
    ensures Get(r, c) == v
    ensures forall d :: d != c ==> Get(r, d) == Get(s, d)
    ensures r.league == s.league && r.locationX == s.locationX && r.locationY == s.locationY && r.xg == s.xg
  {
    match c
    case Team => s.(team := v)
    case Player => s.(player := v)
    case Game => s.(game := v)
    case Situation => s.(situation := v)
    case BodyPart => s.(bodyPart := v)
    case Outcome => s.(result := v)
  }
}
