/** The option lists of the sidebar widgets: each one is the sorted list of
    the distinct values of a column, taken from the league subset (teams) or
    from the league-and-team subset (the five other multiselects), and the
    league list with its fixed default. */
module FilterOptions {
  import opened Wrappers
  import opened ShotData
  import opened StringOrder
  import opened FilterCascade

  const DEFAULT_LEAGUE := "ENG-Premier League"

  /** The present values of column `c`, row by row. */
  function ColumnValues(rows: seq<Shot>, c: Category): (r: seq<string>)
    ensures forall v :: v in r <==> exists s :: s in rows && Get(s, c) == Some(v)
  {
    if rows == [] then []
    else
      assert forall s :: s in rows <==> s == rows[0] || s in rows[1..];
      (if Get(rows[0], c).Some? then [Get(rows[0], c).value] else []) + ColumnValues(rows[1..], c)
  }

  /** `sorted(rows[c].unique())`. */
  function Options(rows: seq<Shot>, c: Category): (r: seq<string>)
    ensures StrictlySorted(r)
    ensures forall v :: v in r <==> exists s :: s in rows && Get(s, c) == Some(v)
  {
    SortedUnique(ColumnValues(rows, c))
  }

  /** An option list is the only strictly sorted list of the column's
      distinct values. */
  lemma OptionsUnique(rows: seq<Shot>, c: Category, xs: seq<string>)
    requires StrictlySorted(xs)
    requires forall v :: v in xs <==> exists s :: s in rows && Get(s, c) == Some(v)
    ensures xs == Options(rows, c)
  {
    StrictlySortedUnique(xs, Options(rows, c));
  }

  /** `sorted(combined_shots_df['league'].unique())`. */
  function LeagueOptions(df: seq<Shot>): (r: seq<string>)
    ensures StrictlySorted(r)
    ensures forall v :: v in r <==> exists s :: s in df && s.league == v
  {
    var leagues := seq(|df|, i requires 0 <= i < |df| => df[i].league);
    assert forall s :: s in df ==> s.league in leagues by {
      forall s | s in df
        ensures s.league in leagues
      {
        var i :| 0 <= i < |df| && df[i] == s;
        assert leagues[i] == s.league;
      }
    }
    SortedUnique(leagues)
  }

  /** `leagues.index('ENG-Premier League')`: the default position of the league
      box, or `None` where the script raises because no row of that league
      exists. */
  function DefaultLeagueIndex(leagues: seq<string>): (r: Option<nat>)
    ensures r.None? <==> DEFAULT_LEAGUE !in leagues
    ensures r.Some? ==> r.value < |leagues| && leagues[r.value] == DEFAULT_LEAGUE
  {
    IndexOf(leagues, DEFAULT_LEAGUE)
  }

  /** `['All'] + sorted(filtered_by_league['team'].unique())`. */
  function TeamOptions(byLeague: seq<Shot>): (r: seq<string>)
    ensures |r| >= 1 && r[0] == ALL
    ensures StrictlySorted(r[1..])
    ensures forall v :: v in r[1..] <==> exists s :: s in byLeague && Get(s, Team) == Some(v)
  {
    var teams := Options(byLeague, Team);
    assert ([ALL] + teams)[1..] == teams;
    [ALL] + teams
  }

  /** The option lists shown for one league and team selection. */
  datatype Panel = Panel(
    teams: seq<string>,
    players: seq<string>,
    games: seq<string>,
    situations: seq<string>,
    bodyParts: seq<string>,
    results: seq<string>)

  /** The player, match, situation, body-part and result lists all come from
      the league-and-team subset, never from one another. */
  function BuildPanel(df: seq<Shot>, sel: Selections): (p: Panel)
    ensures var byLeague := LeagueStage(df, sel.league);
            && |p.teams| >= 1 && p.teams[0] == ALL && StrictlySorted(p.teams[1..])
            && forall v :: v in p.teams[1..] <==> exists s :: s in byLeague && Get(s, Team) == Some(v)
    ensures var byTeams := TeamSubset(df, sel);
            && StrictlySorted(p.players) && StrictlySorted(p.games) && StrictlySorted(p.situations)
            && StrictlySorted(p.bodyParts) && StrictlySorted(p.results)
            && (forall v :: v in p.players <==> exists s :: s in byTeams && Get(s, Player) == Some(v))
            && (forall v :: v in p.games <==> exists s :: s in byTeams && Get(s, Game) == Some(v))
            && (forall v :: v in p.situations <==> exists s :: s in byTeams && Get(s, Situation) == Some(v))
            && (forall v :: v in p.bodyParts <==> exists s :: s in byTeams && Get(s, BodyPart) == Some(v))
            && (forall v :: v in p.results <==> exists s :: s in byTeams && Get(s, Outcome) == Some(v))
  {
    var byLeague := LeagueStage(df, sel.league);
    var byTeams := TeamStage(byLeague, sel.teams);
    Panel(TeamOptions(byLeague), Options(byTeams, Player), Options(byTeams, Game),
          Options(byTeams, Situation), Options(byTeams, BodyPart), Options(byTeams, Outcome))
  }

  /** Choosing players, matches, situations, body parts or results does not
      change any option list: only the league and the teams do. */
  lemma PanelIgnoresLaterSelections(df: seq<Shot>, sel: Selections, other: Selections)
    requires sel.league == other.league && sel.teams == other.teams
    ensures BuildPanel(df, sel) == BuildPanel(df, other)
  {
  }
}
