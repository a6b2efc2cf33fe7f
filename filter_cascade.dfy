/** The sidebar's chain of narrowing filters: league, then team (where "All"
    lifts the restriction), then player, match, situation, body part and
    result (where an empty selection lifts it), then the removal of rows that
    cannot be plotted. Each widget's value is a parameter. */
module FilterCascade {
  import opened Wrappers
  import opened ShotData
  import opened Sequences

  const ALL := "All"

  /** The values of the seven sidebar widgets. */
  datatype Selections = Selections(
    league: string,
    teams: seq<string>,
    players: seq<string>,
    games: seq<string>,
    situations: seq<string>,
    bodyParts: seq<string>,
    results: seq<string>)

  /** `df[c].isin(chosen)` for one row: a missing value is in no selection. */
  predicate ValueIn(s: Shot, c: Category, chosen: seq<string>)
  {
    Get(s, c).Some? && Get(s, c).value in chosen
  }

  /** The row has every column the scatter plot needs. */
  predicate Plottable(s: Shot)
  {
    s.locationX.Some? && s.locationY.Some? && s.xg.Some? && s.result.Some?
  }

  /** `df[df['league'] == league]`. */
  function LeagueStage(rows: seq<Shot>, league: string): (r: seq<Shot>)
    ensures IsSubsequence(r, rows)
    ensures forall s :: multiset(r)[s] == if s.league == league then multiset(rows)[s] else 0
  {
    Filter(rows, (s: Shot) => s.league == league)
  }

  /** The team step: with "All" among the teams the rows pass unchanged,
      whatever else is chosen; otherwise exactly the rows of a chosen team
      remain, so choosing no team at all leaves no rows. */
  function TeamStage(rows: seq<Shot>, teams: seq<string>): (r: seq<Shot>)
    ensures IsSubsequence(r, rows)
    ensures ALL in teams ==> r == rows
    ensures forall s :: multiset(r)[s] == if ALL in teams || ValueIn(s, Team, teams) then multiset(rows)[s] else 0
  {
    if ALL in teams then SubsequenceReflexive(rows); rows else Filter(rows, s => ValueIn(s, Team, teams))
  }

  /** One of the five optional steps: an empty selection leaves the rows
      unchanged; a non-empty one keeps exactly the rows whose value in column
      `c` was chosen. */
  function OptionalStage(rows: seq<Shot>, c: Category, chosen: seq<string>): (r: seq<Shot>)
    ensures IsSubsequence(r, rows)
    ensures chosen == [] ==> r == rows
    ensures forall s :: multiset(r)[s] == if chosen == [] || ValueIn(s, c, chosen) then multiset(rows)[s] else 0
  {
    if chosen == [] then SubsequenceReflexive(rows); rows else Filter(rows, s => ValueIn(s, c, chosen))
  }

  /** `dropna(subset=['location_x', 'location_y', 'xg', 'result'])`. */
  function DropUnplottable(rows: seq<Shot>): (r: seq<Shot>)
    ensures IsSubsequence(r, rows)
    ensures forall s :: s in r ==> Plottable(s)
    ensures forall s :: multiset(r)[s] == if Plottable(s) then multiset(rows)[s] else 0
  {
    Filter(rows, Plottable)
  }

  /** The rows the player, match, situation, body-part and result options are
      computed from: league and team applied. */
  function TeamSubset(df: seq<Shot>, sel: Selections): seq<Shot>
  {
    TeamStage(LeagueStage(df, sel.league), sel.teams)
  }

  /** The five optional steps in the script's order. */
  function Narrow(rows: seq<Shot>, sel: Selections): seq<Shot>
  {
    var byPlayers := OptionalStage(rows, Player, sel.players);
    var byGames := OptionalStage(byPlayers, Game, sel.games);
    var bySituations := OptionalStage(byGames, Situation, sel.situations);
    var byBodyParts := OptionalStage(bySituations, BodyPart, sel.bodyParts);
    OptionalStage(byBodyParts, Outcome, sel.results)
  }

  /** A reference definition of the cascade, row by row: the conditions of
      all stages at once. */
  predicate Matches(s: Shot, sel: Selections)
  {
    && s.league == sel.league
    && (ALL in sel.teams || ValueIn(s, Team, sel.teams))
    && (sel.players == [] || ValueIn(s, Player, sel.players))
    && (sel.games == [] || ValueIn(s, Game, sel.games))
    && (sel.situations == [] || ValueIn(s, Situation, sel.situations))
    && (sel.bodyParts == [] || ValueIn(s, BodyPart, sel.bodyParts))
    && (sel.results == [] || ValueIn(s, Outcome, sel.results))
    && Plottable(s)
  }

  /** The rows that are plotted: exactly the rows of the dataset that meet
      every stage's condition, each with all of its occurrences. */
  function Cascade(df: seq<Shot>, sel: Selections): (r: seq<Shot>)
    ensures forall s :: multiset(r)[s] == if Matches(s, sel) then multiset(df)[s] else 0
  {
    DropUnplottable(Narrow(TeamSubset(df, sel), sel))
  }

  /** The filtering as the script writes it: `filtered_shots` starts from the
      team subset and is reassigned by each active step, then by `dropna`. */
  method ApplyFilters(df: seq<Shot>, sel: Selections) returns (shots: seq<Shot>)
    ensures shots == Cascade(df, sel)
  {
    var byLeague := Filter(df, (s: Shot) => s.league == sel.league);
    var byTeams;
    if ALL in sel.teams {
      byTeams := byLeague;
    } else {
      byTeams := Filter(byLeague, s => ValueIn(s, Team, sel.teams));
    }
    shots := byTeams;
    if sel.players != [] {
      shots := Filter(shots, s => ValueIn(s, Player, sel.players));
    }
    if sel.games != [] {
      shots := Filter(shots, s => ValueIn(s, Game, sel.games));
    }
    if sel.situations != [] {
      shots := Filter(shots, s => ValueIn(s, Situation, sel.situations));
    }
    if sel.bodyParts != [] {
      shots := Filter(shots, s => ValueIn(s, BodyPart, sel.bodyParts));
    }
    if sel.results != [] {
      shots := Filter(shots, s => ValueIn(s, Outcome, sel.results));
    }
    shots := Filter(shots, Plottable);
  }

  /** Every final row belongs to the chosen league, passes every active
      filter and can be plotted. */
  lemma CascadeRows(df: seq<Shot>, sel: Selections, s: Shot)
    requires s in Cascade(df, sel)
    ensures s in df && Matches(s, sel) && s.league == sel.league && Plottable(s)
  {
    assert multiset(Cascade(df, sel))[s] > 0;
  }

  /** Each stage's output is an order-preserving subsequence of its input,
      so the number of shots never grows along the cascade. */
  lemma {:induction false} CascadeNarrows(df: seq<Shot>, sel: Selections)
    ensures var byLeague := LeagueStage(df, sel.league);
            var byTeams := TeamStage(byLeague, sel.teams);
            var byPlayers := OptionalStage(byTeams, Player, sel.players);
            var byGames := OptionalStage(byPlayers, Game, sel.games);
            var bySituations := OptionalStage(byGames, Situation, sel.situations);
            var byBodyParts := OptionalStage(bySituations, BodyPart, sel.bodyParts);
            var narrowed := OptionalStage(byBodyParts, Outcome, sel.results);
            && IsSubsequence(Cascade(df, sel), df)
            && |Cascade(df, sel)| <= |narrowed| <= |byBodyParts| <= |bySituations|
               <= |byGames| <= |byPlayers| <= |byTeams| <= |byLeague| <= |df|
  {
    var byLeague := LeagueStage(df, sel.league);
    var byTeams := TeamStage(byLeague, sel.teams);
    var byPlayers := OptionalStage(byTeams, Player, sel.players);
    var byGames := OptionalStage(byPlayers, Game, sel.games);
    var bySituations := OptionalStage(byGames, Situation, sel.situations);
    var byBodyParts := OptionalStage(bySituations, BodyPart, sel.bodyParts);
    var narrowed := OptionalStage(byBodyParts, Outcome, sel.results);
    var final := DropUnplottable(narrowed);
    SubsequenceTransitive(byTeams, byLeague, df);
    SubsequenceTransitive(byPlayers, byTeams, df);
    SubsequenceTransitive(byGames, byPlayers, df);
    SubsequenceTransitive(bySituations, byGames, df);
    SubsequenceTransitive(byBodyParts, bySituations, df);
    SubsequenceTransitive(narrowed, byBodyParts, df);
    SubsequenceTransitive(final, narrowed, df);
    SubsequenceLength(final, narrowed);
    SubsequenceLength(narrowed, byBodyParts);
    SubsequenceLength(byBodyParts, bySituations);
    SubsequenceLength(bySituations, byGames);
    SubsequenceLength(byGames, byPlayers);
    SubsequenceLength(byPlayers, byTeams);
    SubsequenceLength(byTeams, byLeague);
    SubsequenceLength(byLeague, df);
  }

  /** Rows that all meet every condition pass the cascade unchanged. */
  lemma CascadeKeepsMatching(rows: seq<Shot>, sel: Selections)
    requires forall s :: s in rows ==> Matches(s, sel)
    ensures Cascade(rows, sel) == rows
  {
    CascadeNarrows(rows, sel);
    assert multiset(Cascade(rows, sel)) == multiset(rows) by {
      forall s
        ensures multiset(Cascade(rows, sel))[s] == multiset(rows)[s]
      {
        if !Matches(s, sel) {
          assert s !in rows;
        }
      }
    }
    SubsequenceWithAllElements(Cascade(rows, sel), rows);
  }

  /** Filtering the filtered rows again with the same selections changes
      nothing. */
  lemma CascadeIdempotent(df: seq<Shot>, sel: Selections)
    ensures Cascade(Cascade(df, sel), sel) == Cascade(df, sel)
  {
    forall s | s in Cascade(df, sel)
      ensures Matches(s, sel)
    {
      CascadeRows(df, sel, s);
    }
    CascadeKeepsMatching(Cascade(df, sel), sel);
  }

  /** An empty team selection (no "All") leaves nothing to plot. */
  lemma NoTeamsNoShots(df: seq<Shot>, sel: Selections)
    requires sel.teams == []
    ensures TeamSubset(df, sel) == [] && Cascade(df, sel) == []
  {
    var byTeams := TeamSubset(df, sel);
    assert multiset(byTeams) == multiset{} by {
      forall s ensures multiset(byTeams)[s] == 0 { }
    }
    assert |byTeams| == |multiset(byTeams)| == 0;
  }
}
