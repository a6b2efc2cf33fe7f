/** One run of the script, top to bottom, for given data files and widget
    values: load and combine the tables, fill missing values, place the league
    box on its default, filter, and produce the page. */
module App {
  import opened Wrappers
  import opened ShotData
  import opened Loader
  import opened Normalizer
  import opened FilterCascade
  import opened FilterOptions
  import opened ShotMap

  /** Why a run stops before the page is shown: a data file is missing (the
      script shows the message and stops), or no Premier League row exists so
      `leagues.index` raises. */
  datatype Stop = MissingFile(message: string) | NoDefaultLeague

  /** The combined, normalised table. */
  function Dataset(files: map<string, seq<Shot>>): seq<Shot>
    requires Available(files, |LEAGUE_FILES|)
  {
    Normalize(Concat(TaggedTables(files, |LEAGUE_FILES|)))
  }

  method Run(files: map<string, seq<Shot>>, sel: Selections) returns (r: Result<Page, Stop>)
    ensures (r.Failure? && r.error.MissingFile?) <==> !Available(files, |LEAGUE_FILES|)
    ensures (r.Failure? && r.error.NoDefaultLeague?) <==>
      Available(files, |LEAGUE_FILES|) && forall s :: s in Dataset(files) ==> s.league != DEFAULT_LEAGUE
    ensures r.Failure? && r.error.MissingFile? ==>
      exists k :: 0 <= k < |LEAGUE_FILES| && Available(files, k) && LEAGUE_FILES[k].1 !in files
                  && r.error.message == NotFoundMessage(LEAGUE_FILES[k].1)
    ensures r.Success? ==>
      Available(files, |LEAGUE_FILES|) && r.value == Render(Cascade(Dataset(files), sel), sel)
  {
    var loaded := LoadLeagues(files);
    if loaded.Failure? {
      return Failure(MissingFile(loaded.error));
    }
    var combined := Concat(loaded.value);
    combined := FillMissing(combined);
    var leagues := LeagueOptions(combined);
    if DefaultLeagueIndex(leagues).None? {
      return Failure(NoDefaultLeague);
    }
    var shots := ApplyFilters(combined, sel);
    if shots == [] {
      return Success(Page(0, NoShots(NO_SHOTS_MESSAGE)));
    }
    var title := BuildTitle(sel);
    return Success(Page(|shots|, Map(title, Legend(shots), shots)));
  }
}
