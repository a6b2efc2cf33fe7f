/** Loading one table per league, tagging every row with its league, and
    concatenating the tables in the order the leagues are configured. Reading
    a CSV file is replaced by a map from file name to the rows it holds; a
    name that is not in the map is a file that does not exist. */
module Loader {
  import opened Wrappers
  import opened ShotData
  import opened Sequences

  /** League name and data file, in the dictionary's insertion order. */
  const LEAGUE_FILES: seq<(string, string)> := [
    ("ENG-Premier League", "epl_shots.csv"),
    ("ESP-La Liga", "laliga_shots.csv"),
    ("FRA-Ligue 1", "fra_shots.csv"),
    ("GER-Bundesliga", "ger_shots.csv"),
    ("ITA-Serie A", "ita_shots.csv")
  ]

  datatype LeagueTable = LeagueTable(league: string, rows: seq<Shot>)

  /** The message shown before the script stops on a missing file. */
  function NotFoundMessage(path: string): (r: string)
    ensures |r| > 8 + |path| && r[8..8 + |path|] == path
  {
    "Error: '" + path + "' not found. Please make sure the data file is in the same directory."
  }

  /** `df['league'] = league`: the column is set on every row. */
  function Tag(rows: seq<Shot>, league: string): (r: seq<Shot>)
    ensures |r| == |rows|
    ensures forall i :: 0 <= i < |r| ==> r[i].league == league && r[i] == rows[i].(league := league)
  {
    seq(|rows|, i requires 0 <= i < |rows| => rows[i].(league := league))
  }

  /** The data files of the first `n` configured leagues all exist. */
  predicate Available(files: map<string, seq<Shot>>, n: nat)
    requires n <= |LEAGUE_FILES|
  {
    forall k :: 0 <= k < n ==> LEAGUE_FILES[k].1 in files
  }

  /** The tagged tables of the first `n` configured leagues. */
  function TaggedTables(files: map<string, seq<Shot>>, n: nat): (r: seq<LeagueTable>)
    requires n <= |LEAGUE_FILES| && Available(files, n)
    ensures |r| == n
    ensures forall k :: 0 <= k < n ==>
      var (league, path) := LEAGUE_FILES[k];
      r[k].league == league && |r[k].rows| == |files[path]|
      && forall j :: 0 <= j < |r[k].rows| ==> r[k].rows[j] == files[path][j].(league := league)
  {
    seq(n, k requires 0 <= k < n => LeagueTable(LEAGUE_FILES[k].0, Tag(files[LEAGUE_FILES[k].1], LEAGUE_FILES[k].0)))
  }

  /** The load loop: reads every league's file in order and tags its rows; the
      first missing file stops the script with its error message. */
  method LoadLeagues(files: map<string, seq<Shot>>) returns (r: Result<seq<LeagueTable>, string>)
    ensures r.Success? <==> Available(files, |LEAGUE_FILES|)
    ensures r.Success? ==> r.value == TaggedTables(files, |LEAGUE_FILES|)
    ensures r.Failure? ==>
      exists k :: 0 <= k < |LEAGUE_FILES| && Available(files, k) && LEAGUE_FILES[k].1 !in files
                  && r.error == NotFoundMessage(LEAGUE_FILES[k].1)
  {
    var loaded: seq<LeagueTable> := [];
    var i := 0;
    while i < |LEAGUE_FILES|
      invariant 0 <= i <= |LEAGUE_FILES|
      invariant Available(files, i)
      invariant loaded == TaggedTables(files, i)
    {
      var (league, path) := LEAGUE_FILES[i];
      if path !in files {
        return Failure(NotFoundMessage(path));
      }
      loaded := loaded + [LeagueTable(league, Tag(files[path], league))];
      i := i + 1;
    }
    return Success(loaded);
  }

  /** `pd.concat(tables, ignore_index=True)`: the rows of every table, table
      after table. */
  function Concat(tables: seq<LeagueTable>): seq<Shot>
  {
    if tables == [] then [] else tables[0].rows + Concat(tables[1..])
  }

  function TotalRows(tables: seq<LeagueTable>): nat
  {
    if tables == [] then 0 else |tables[0].rows| + TotalRows(tables[1..])
  }

  /** Where the rows of table `k` start in the concatenation. */
  function Offset(tables: seq<LeagueTable>, k: nat): nat
    requires k <= |tables|
  {
    TotalRows(tables[..k])
  }

  /** No row is lost or added: the combined length is the sum of the lengths. */
  lemma {:induction false} ConcatLength(tables: seq<LeagueTable>)
    ensures |Concat(tables)| == TotalRows(tables)
  {
    if tables != [] {
      ConcatLength(tables[1..]);
    }
  }

  /** Row `j` of table `k` sits at position `Offset(k) + j` of the
      concatenation: every row is kept, in order, table after table. */
  lemma {:induction false} ConcatAt(tables: seq<LeagueTable>, k: nat, j: nat)
    requires k < |tables| && j < |tables[k].rows|
    ensures Offset(tables, k) + j < |Concat(tables)| && Concat(tables)[Offset(tables, k) + j] == tables[k].rows[j]
  {
    ConcatLength(tables[1..]);
    if k > 0 {
      ConcatAt(tables[1..], k - 1, j);
      assert tables[..k] == [tables[0]] + tables[1..][..k - 1];
      assert tables[..k][1..] == tables[1..][..k - 1];
    } else {
      assert tables[..0] == [];
    }
  }

  /** Every row of the concatenation comes from one of the tables. */
  lemma {:induction false} ConcatOrigin(tables: seq<LeagueTable>, s: Shot)
    requires s in Concat(tables)
    ensures exists k :: 0 <= k < |tables| && s in tables[k].rows
  {
    if s !in tables[0].rows {
      ConcatOrigin(tables[1..], s);
      var k :| 0 <= k < |tables[1..]| && s in tables[1..][k].rows;
      assert s in tables[k + 1].rows;
    }
  }

  /** After a successful load, the row at `Offset(k) + j` of the combined table
      is row `j` of league `k`'s file with its `league` set to that league. */
  lemma CombinedRowLeague(files: map<string, seq<Shot>>, k: nat, j: nat)
    requires Available(files, |LEAGUE_FILES|)
    requires k < |LEAGUE_FILES| && j < |files[LEAGUE_FILES[k].1]|
    ensures var tables := TaggedTables(files, |LEAGUE_FILES|);
            && Offset(tables, k) + j < |Concat(tables)|
            && Concat(tables)[Offset(tables, k) + j].league == LEAGUE_FILES[k].0
            && Concat(tables)[Offset(tables, k) + j] == files[LEAGUE_FILES[k].1][j].(league := LEAGUE_FILES[k].0)
  {
    ConcatAt(TaggedTables(files, |LEAGUE_FILES|), k, j);
  }

  /** Every combined row carries the name of a configured league. */
  lemma CombinedLeagues(files: map<string, seq<Shot>>, s: Shot)
    requires Available(files, |LEAGUE_FILES|)
    requires s in Concat(TaggedTables(files, |LEAGUE_FILES|))
    ensures exists k :: 0 <= k < |LEAGUE_FILES| && s.league == LEAGUE_FILES[k].0
  {
    var tables := TaggedTables(files, |LEAGUE_FILES|);
    ConcatOrigin(tables, s);
    var k :| 0 <= k < |tables| && s in tables[k].rows;
    assert s.league == LEAGUE_FILES[k].0;
  }
}
