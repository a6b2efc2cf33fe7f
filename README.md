# League shot maps: a verified model of the filtering pipeline

This project models the logic of `app.py`, a Streamlit page for soccer shot
data. The page loads one CSV table of shots per league, tags each row with its
league and combines the tables. It then fills missing values in the six filter
columns with `"Unknown"`. The sidebar narrows the shots in a cascade: league,
team (with an `All` choice), then player, match, situation, body part and
result, where an empty choice means no restriction. Rows that cannot be
plotted are dropped. The page then shows the number of shots and either a
"no shots" message or a shot map, with a title built from the active filters
and a legend limited to the outcomes that occur.

Modules, one per stage of the script:

- `ShotData` (`shot_data.dfy`): the shot row. Categorical columns are
  `Option<string>`. The coordinates and `xg` are `Option<real>`, because only
  whether they are present matters to the logic.
- `Loader` (`loader.dfy`): the league/file table, the load loop with its
  missing-file error, tagging, and `pd.concat`.
- `Normalizer` (`normalizer.dfy`): the six `fillna('Unknown')` assignments.
- `FilterCascade` (`filter_cascade.dfy`): each filter step as a pure function,
  the script's reassignment sequence as a method, and the `dropna` pass.
- `FilterOptions` (`filter_options.dfy`): the option lists
  (`sorted(...unique())`), the `All` prefix for teams, and the default league
  position.
- `ShotMap` (`shot_map.dfy`): the title, the legend and the page.
- `App` (`app.dfy`): one run of the whole script.
- `Sequences`, `StringOrder`, `Wrappers`: row selection by mask,
  subsequences, `str.join`, Python's string order with sorted de-duplication,
  `list.index`, and Option/Result.

The imperative parts of the script are methods over local values, each proved
equal to a pure specification function whose properties are lemmas:
`LoadLeagues` (the load loop), `FillMissing` (the six column overwrites),
`ApplyFilters` (the stage-by-stage reassignment of `filtered_shots`) and
`BuildTitle` (the appends to `title_parts`).

Where the code and the design description differ, the model follows the code:

- The league box has no alphabetical fallback. `leagues.index('ENG-Premier League')`
  raises when no Premier League row exists, and `App.Run` models this as the
  `NoDefaultLeague` stop.
- The legend does not list every distinct result. It lists the palette keys
  that occur, in palette order. A result outside the palette gets no entry,
  so the `'black'` fallback of `result_colors.get` is never used.
- The design promises a fallback marker colour for an unexpected outcome; the
  code has none. `filtered_shots['result'].map(result_colors)` gives no colour
  for a result outside the palette, and the scatter call then fails before the
  title and the legend are drawn. The model does not capture this failure (see
  `ShotMap.Render` under "## Left out").

## Model

| member | source | states |
|---|---|---|
| `ShotData.Set` | app.py:34-39 | overwriting one filter column of a row leaves every other column, `league` and the numeric fields unchanged |
| `Loader.NotFoundMessage` | app.py:27 | the error shown for a missing file names that file's path |
| `Loader.Tag` | app.py:24 | every row of a loaded table gets the table's league; the row count and all other fields are unchanged |
| `Loader.TaggedTables` | app.py:20-25 | table `k` of the loop's result is league `k`'s file, every row tagged with that league's name, in configuration order |
| `Loader.LoadLeagues` | app.py:19-28 | the load loop succeeds iff every configured file exists, and then yields the five tables, tagged, in configuration order; otherwise the error is the not-found message for the first missing file |
| `Loader.Concat` | app.py:31 | `pd.concat`; its content is fixed by `ConcatLength` (row count) and `ConcatAt` (every row at its position, table after table) |
| `Loader.ConcatLength` | app.py:31 | the combined table has exactly the sum of the tables' row counts |
| `Loader.ConcatAt` | app.py:31 | row `j` of table `k` is at position `Offset(k) + j` of the combined table, so every row is kept, in order, table after table |
| `Loader.ConcatOrigin` | app.py:31 | every combined row comes from one of the tables |
| `Loader.CombinedRowLeague` | app.py:20-31 | after loading, the combined row at `Offset(k) + j` is row `j` of league `k`'s file with `league` set to that league's name |
| `Loader.CombinedLeagues` | app.py:20-31 | every combined row carries the name of a configured league |
| `Normalizer.FillNa` | app.py:34-39 | one cell after `fillna`: always present; a present value is kept, a missing one becomes `"Unknown"` |
| `Normalizer.FillColumn` | app.py:34 | one `fillna`: afterwards the column is present in every row, present values are kept, and other columns are untouched |
| `Normalizer.NormalizeShot` | app.py:34-39 | one row after the six assignments: no filter column missing, present values kept, missing ones `"Unknown"`, `league` and numeric fields unchanged |
| `Normalizer.Normalize` | app.py:34-39 | same number of rows; no filter column is missing afterwards; a present value is unchanged and a missing one becomes `"Unknown"`; `league` and the numeric columns are unchanged |
| `Normalizer.FillMissing` | app.py:34-39 | the six column assignments in sequence give exactly the normalised table |
| `Normalizer.NormalizeComplete` | app.py:34-39 | a table with no missing filter values is left unchanged |
| `Normalizer.NormalizeIdempotent` | app.py:34-39 | normalising twice equals normalising once |
| `Sequences.Filter` | app.py:52 | mask selection: each element that passes keeps all its occurrences, the others are gone, and the order is kept (a subsequence) |
| `FilterCascade.LeagueStage` | app.py:52 | exactly the rows of the selected league remain, as a subsequence |
| `FilterCascade.TeamStage` | app.py:62-65 | with `All` selected, the rows pass unchanged whatever else is selected; otherwise exactly the rows whose team is selected remain |
| `FilterCascade.NoTeamsNoShots` | app.py:62-65 | an empty team selection leaves no rows for the later stages and nothing to plot |
| `FilterCascade.OptionalStage` | app.py:91-104 | an empty selection leaves the rows unchanged; a non-empty one keeps exactly the rows whose value in that column is selected |
| `FilterCascade.Narrow` | app.py:91-104 | the five optional filters in the script's order; what survives is stated by `Cascade` through `Matches`, and `CascadeNarrows` shows each step only narrows |
| `FilterCascade.DropUnplottable` | app.py:107 | every remaining row has `location_x`, `location_y`, `xg` and `result`; no row that has all four is removed |
| `FilterCascade.Cascade` | app.py:52-107 | the plotted rows are exactly the rows meeting every stage's condition (`Matches`), with their multiplicity |
| `FilterCascade.ApplyFilters` | app.py:88-107 | the script's sequence of conditional reassignments computes the cascade |
| `FilterCascade.CascadeRows` | app.py:52-107 | every final row comes from the dataset, is in the selected league, passes every active filter and can be plotted |
| `FilterCascade.CascadeNarrows` | app.py:52-107 | the final rows are an order-preserving subsequence of the dataset, and the row count never grows from stage to stage: league, team, each of the five optional filters, and `dropna` |
| `FilterCascade.CascadeKeepsMatching` | app.py:52-107 | rows that all meet every condition pass the cascade unchanged |
| `FilterCascade.CascadeIdempotent` | app.py:52-107 | filtering the filtered rows again with the same selections changes nothing |
| `StringOrder.SortedUnique` | app.py:55 | `sorted(unique())`: strictly increasing in Python's string order, holding exactly the input's values |
| `StringOrder.StrictlySortedUnique` | app.py:55 | two strictly sorted lists with the same elements are equal, so the sorted distinct list is unique |
| `FilterOptions.Options` | app.py:68-85 | an option list is strictly sorted and holds exactly the values present in its column |
| `FilterOptions.OptionsUnique` | app.py:68-85 | any strictly sorted list of exactly the column's values is the option list |
| `FilterOptions.LeagueOptions` | app.py:48 | the league list is strictly sorted and holds exactly the leagues that occur |
| `StringOrder.IndexOf` | app.py:49 | `list.index`: the position of the first occurrence, and none iff the value is absent |
| `FilterOptions.DefaultLeagueIndex` | app.py:49 | the default position is where `ENG-Premier League` stands in the list, and there is none iff it is absent (where the script raises) |
| `FilterOptions.TeamOptions` | app.py:55-57 | the team list is `All` followed by the strictly sorted teams of the league subset |
| `FilterOptions.BuildPanel` | app.py:55-85 | the team options come from the league subset; the five other lists are sorted and hold exactly their column's values in the league-and-team subset |
| `FilterOptions.PanelIgnoresLaterSelections` | app.py:67-85 | player, match, situation, body-part and result choices never change any option list |
| `ShotMap.TitleParts` | app.py:143-156 | the `title_parts` list; `TitleClausesInOrder` states its content |
| `ShotMap.Title` | app.py:159 | the joined title; `TitleStart` states its prefix and when it has no clause |
| `ShotMap.BuildTitle` | app.py:143-159 | the appends to `title_parts` joined by spaces give the title |
| `ShotMap.ActiveClausesExact` | app.py:145-156 | the active clauses keep the fixed clause order and are exactly the clauses with an active filter |
| `ShotMap.TitleClausesInOrder` | app.py:143-156 | the title parts are `"Shot Map"`, `"for <league>"`, then the texts of the active clauses in the order teams, players, matches, situations, body parts, results |
| `ShotMap.TitleStart` | app.py:143-159 | the title always begins `"Shot Map for <league>"`, and equals it exactly when no clause is active |
| `ShotMap.Lookup` | app.py:165 | `dict.get`: a colour is found iff the key is in the palette, and it is that key's colour |
| `ShotMap.ColorFor` | app.py:165 | `.get(result, 'black')`: the palette colour of the result, or `black` exactly when the result is not a palette key |
| `ShotMap.Legend` | app.py:163-166 | the legend comprehension; `LegendExact` and `LegendColors` state its entries and colours |
| `ShotMap.LegendExact` | app.py:163-166 | the legend lists exactly the palette outcomes present among the shots, in palette order; an outcome outside the palette gets no entry |
| `ShotMap.PaletteColor` | app.py:165 | a palette outcome is coloured with its own palette entry, never with the `black` fallback |
| `ShotMap.LegendColors` | app.py:164-166 | each legend entry has its outcome's palette colour, so the `black` fallback is never used |
| `ShotMap.LegendOfGoals` | app.py:163-166 | when every shot is a goal, the legend is at most the yellow `Goal` entry |
| `ShotMap.Render` | app.py:110-166 | the count shown is the number of filtered shots; the "no shots" message appears exactly when there are none; otherwise the map carries the shots, the title and the legend of those shots |
| `ShotMap.GoalRow` | app.py:103-104 | with only `Goal` selected as result, every plotted row is a goal of the selected league |
| `ShotMap.GoalsOnlyScenario` | app.py:52-166 | Premier League, all teams, only goals: every plotted row is a Premier League goal and the legend is at most the yellow `Goal` entry |
| `App.Run` | app.py:19-170 | a run stops on a missing file iff one is missing, with the message for the first missing file, stops on the default league iff no Premier League row exists, and otherwise shows the page for the filtered, normalised, combined data |

## Left out

- Reading CSV files: `read_csv` is replaced by a map from file name to rows, and a name missing from the map stands for `FileNotFoundError`. Parsing, column types and pandas' row index (`ignore_index`) are not modelled.
- `st.error` and `st.stop` are modelled as the `MissingFile` result that ends the run. The default-league `ValueError` is modelled as `NoDefaultLeague`.
- Streamlit widgets, page configuration and sidebar text: each widget's value is an input (`Selections`). The model does not require that the chosen values come from the option lists, because the filters do not depend on that.
- Pitch drawing and scatter rendering with mplsoccer/matplotlib, coordinate scaling (`* 120`, `* 80`), marker size (`xg * 1500`) and the marker colours from `.map(result_colors)`: these are foreign plotting calls and floating-point arithmetic. The map view carries the rows it would plot.
- `warnings.filterwarnings`: it has no effect on the logic.
- Option lists skip missing values. pandas' `unique()` would include NaN, and `sorted` would then fail, but after `fillna` no filter column has a missing value and `league` is always set.
- `FilterOptions.TeamOptions`: if a team were literally named `All`, the team list would hold `All` twice. The contract states sortedness of the teams after the leading `All` only, as the code produces.
- `.copy()` calls: values in the model are immutable, so copying has no observable effect.
- `App.Run`: the page it returns holds the shot count, the title, the legend and the plotted rows, but not the sidebar's option lists. Those are stated on their own by `LeagueOptions`, `DefaultLeagueIndex`, `TeamOptions` and `BuildPanel`, and a run does not connect them to the page.
- `ShotMap.Render` and `App.Run`: when a plotted row's result is not one of the six palette keys (for example `"OwnGoal"`), `.map(result_colors)` yields a missing colour and the script's `pitch.scatter` call fails, before the title and the legend are built. The model shows the map with its title and legend for such rows all the same, because the failure lies in matplotlib's colour parsing, which is not part of this model.
