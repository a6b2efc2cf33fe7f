/** What the main area shows for the filtered shots: the shot count, then
    either the no-results message or the shot map with its composed title and
    a legend limited to the outcomes that occur. Drawing the pitch and the
    markers is not modelled; the map carries the rows it would plot. */
module ShotMap {
  import opened Wrappers
  import opened ShotData
  import opened Sequences
  import opened FilterCascade

  // ---------------------------------------------------------------- title

  /** The title clauses, one per filter after the league, in title order. */
  datatype Clause = TeamsClause | PlayersClause | GamesClause | SituationsClause | BodyPartsClause | ResultsClause

  const CLAUSE_ORDER: seq<Clause> :=
    [TeamsClause, PlayersClause, GamesClause, SituationsClause, BodyPartsClause, ResultsClause]

  function Chosen(sel: Selections, cl: Clause): seq<string>
  {
    match cl
    case TeamsClause => sel.teams
    case PlayersClause => sel.players
    case GamesClause => sel.games
    case SituationsClause => sel.situations
    case BodyPartsClause => sel.bodyParts
    case ResultsClause => sel.results
  }

  /** A clause is written when its selection is non-empty; the team clause
      also needs "All" to be unselected. */
  predicate Active(sel: Selections, cl: Clause)
  {
    Chosen(sel, cl) != [] && (cl == TeamsClause ==> ALL !in sel.teams)
  }

  /** The clause text: the chosen values joined by ", ", in parentheses for
      teams and results, after "by", "in", "from" or "with" otherwise. */
  function ClauseText(sel: Selections, cl: Clause): string
  {
    var names := Join(Chosen(sel, cl), ", ");
    match cl
    case TeamsClause => "(" + names + ")"
    case PlayersClause => "by " + names
    case GamesClause => "in " + names
    case SituationsClause => "from " + names
    case BodyPartsClause => "with " + names
    case ResultsClause => "(" + names + ")"
  }

  function IfActive(sel: Selections, cl: Clause): seq<string>
  {
    if Active(sel, cl) then [ClauseText(sel, cl)] else []
  }

  /** The `title_parts` list. */
  function TitleParts(sel: Selections): seq<string>
  {
    ["Shot Map", "for " + sel.league]
    + IfActive(sel, TeamsClause) + IfActive(sel, PlayersClause) + IfActive(sel, GamesClause)
    + IfActive(sel, SituationsClause) + IfActive(sel, BodyPartsClause) + IfActive(sel, ResultsClause)
  }

  /** `" ".join(title_parts)`. */
  function Title(sel: Selections): string
  {
    Join(TitleParts(sel), " ")
  }

  /** The title as the script builds it: two fixed parts, then one append per
      active filter. */
  method BuildTitle(sel: Selections) returns (title: string)
    ensures title == Title(sel)
  {
    var parts := ["Shot Map"];
    parts := parts + ["for " + sel.league];
    if sel.teams != [] && ALL !in sel.teams {
      parts := parts + ["(" + Join(sel.teams, ", ") + ")"];
    }
    assert parts == ["Shot Map", "for " + sel.league] + IfActive(sel, TeamsClause);
    if sel.players != [] {
      parts := parts + ["by " + Join(sel.players, ", ")];
    }
    assert parts == ["Shot Map", "for " + sel.league] + IfActive(sel, TeamsClause) + IfActive(sel, PlayersClause);
    if sel.games != [] {
      parts := parts + ["in " + Join(sel.games, ", ")];
    }
    assert parts == ["Shot Map", "for " + sel.league] + IfActive(sel, TeamsClause) + IfActive(sel, PlayersClause)
                    + IfActive(sel, GamesClause);
    if sel.situations != [] {
      parts := parts + ["from " + Join(sel.situations, ", ")];
    }
    assert parts == ["Shot Map", "for " + sel.league] + IfActive(sel, TeamsClause) + IfActive(sel, PlayersClause)
                    + IfActive(sel, GamesClause) + IfActive(sel, SituationsClause);
    if sel.bodyParts != [] {
      parts := parts + ["with " + Join(sel.bodyParts, ", ")];
    }
    assert parts == ["Shot Map", "for " + sel.league] + IfActive(sel, TeamsClause) + IfActive(sel, PlayersClause)
                    + IfActive(sel, GamesClause) + IfActive(sel, SituationsClause) + IfActive(sel, BodyPartsClause);
    if sel.results != [] {
      parts := parts + ["(" + Join(sel.results, ", ") + ")"];
    }
    assert parts == TitleParts(sel);
    title := Join(parts, " ");
  }

  /** The clauses among `cls` that are active, in the order of `cls`. */
  function ActiveClauses(sel: Selections, cls: seq<Clause>): seq<Clause>
  {
    if cls == [] then []
    else
      var last := cls[|cls| - 1];
      ActiveClauses(sel, cls[..|cls| - 1]) + (if Active(sel, last) then [last] else [])
  }

  /** The active clauses keep the order of `cls` and are exactly those of
      `cls` that are active. */
  lemma {:induction false} ActiveClausesExact(sel: Selections, cls: seq<Clause>)
    ensures IsSubsequence(ActiveClauses(sel, cls), cls)
    ensures forall cl :: cl in ActiveClauses(sel, cls) <==> cl in cls && Active(sel, cl)
  {
    if cls != [] {
      var init := cls[..|cls| - 1];
      var last := cls[|cls| - 1];
      assert cls == init + [last];
      ActiveClausesExact(sel, init);
      SubsequenceSnoc(ActiveClauses(sel, init), init, last);
      if Active(sel, last) {
        assert ActiveClauses(sel, cls) == ActiveClauses(sel, init) + [last];
      } else {
        assert ActiveClauses(sel, cls) == ActiveClauses(sel, init);
      }
    }
  }

  /** The texts of the given clauses, in the given order. */
  function Texts(sel: Selections, cls: seq<Clause>): seq<string>
  {
    if cls == [] then [] else Texts(sel, cls[..|cls| - 1]) + [ClauseText(sel, cls[|cls| - 1])]
  }

  lemma TextsStep(sel: Selections, init: seq<Clause>, cl: Clause)
    ensures Texts(sel, init + (if Active(sel, cl) then [cl] else [])) == Texts(sel, init) + IfActive(sel, cl)
  {
    if Active(sel, cl) {
      var cls := init + [cl];
      assert cls != [] && cls[..|cls| - 1] == init && cls[|cls| - 1] == cl;
      assert Texts(sel, cls) == Texts(sel, init) + [ClauseText(sel, cl)];
    } else {
      assert init + [] == init;
    }
  }

  /** After the two fixed parts, the title holds one clause per active filter
      and no other, in the order teams, players, matches, situations, body
      parts, results. */
  lemma TitleClausesInOrder(sel: Selections)
    ensures TitleParts(sel) == ["Shot Map", "for " + sel.league] + Texts(sel, ActiveClauses(sel, CLAUSE_ORDER))
  {
    var order := CLAUSE_ORDER;
    var a0 := ActiveClauses(sel, order[..0]);
    var a1 := ActiveClauses(sel, order[..1]);
    var a2 := ActiveClauses(sel, order[..2]);
    var a3 := ActiveClauses(sel, order[..3]);
    var a4 := ActiveClauses(sel, order[..4]);
    var a5 := ActiveClauses(sel, order[..5]);
    var a6 := ActiveClauses(sel, order);
    assert order[..0] == [];
    assert a0 == [];
    assert order[..1][..0] == order[..0];
    assert a1 == a0 + (if Active(sel, TeamsClause) then [TeamsClause] else []);
    assert order[..2][..1] == order[..1];
    assert a2 == a1 + (if Active(sel, PlayersClause) then [PlayersClause] else []);
    assert order[..3][..2] == order[..2];
    assert a3 == a2 + (if Active(sel, GamesClause) then [GamesClause] else []);
    assert order[..4][..3] == order[..3];
    assert a4 == a3 + (if Active(sel, SituationsClause) then [SituationsClause] else []);
    assert order[..5][..4] == order[..4];
    assert a5 == a4 + (if Active(sel, BodyPartsClause) then [BodyPartsClause] else []);
    assert order[..5] == order[..|order| - 1];
    assert a6 == a5 + (if Active(sel, ResultsClause) then [ResultsClause] else []);
    var head := ["Shot Map", "for " + sel.league];
    assert head + Texts(sel, a0) == head;
    TextsStep(sel, a0, TeamsClause);
    AppendAssociative(head, Texts(sel, a0), IfActive(sel, TeamsClause));
    TextsStep(sel, a1, PlayersClause);
    AppendAssociative(head, Texts(sel, a1), IfActive(sel, PlayersClause));
    TextsStep(sel, a2, GamesClause);
    AppendAssociative(head, Texts(sel, a2), IfActive(sel, GamesClause));
    TextsStep(sel, a3, SituationsClause);
    AppendAssociative(head, Texts(sel, a3), IfActive(sel, SituationsClause));
    TextsStep(sel, a4, BodyPartsClause);
    AppendAssociative(head, Texts(sel, a4), IfActive(sel, BodyPartsClause));
    TextsStep(sel, a5, ResultsClause);
    AppendAssociative(head, Texts(sel, a5), IfActive(sel, ResultsClause));
  }

  lemma {:induction false} TextsLength(sel: Selections, cls: seq<Clause>)
    ensures |Texts(sel, cls)| == |cls|
  {
    if cls != [] {
      TextsLength(sel, cls[..|cls| - 1]);
    }
  }

  /** No clause text is written exactly when no filter after the league is
      active. */
  lemma {:induction false} NoClauseIffInactive(sel: Selections)
    ensures Texts(sel, ActiveClauses(sel, CLAUSE_ORDER)) == [] <==> forall cl :: !Active(sel, cl)
  {
    var active := ActiveClauses(sel, CLAUSE_ORDER);
    TextsLength(sel, active);
    ActiveClausesExact(sel, CLAUSE_ORDER);
    forall cl ensures cl in CLAUSE_ORDER {
      match cl
      case TeamsClause => assert CLAUSE_ORDER[0] == cl;
      case PlayersClause => assert CLAUSE_ORDER[1] == cl;
      case GamesClause => assert CLAUSE_ORDER[2] == cl;
      case SituationsClause => assert CLAUSE_ORDER[3] == cl;
      case BodyPartsClause => assert CLAUSE_ORDER[4] == cl;
      case ResultsClause => assert CLAUSE_ORDER[5] == cl;
    }
    if active != [] {
      assert active[0] in active;
    }
  }

  /** Joining the two fixed parts and the clause texts. */
  lemma JoinTitle(league: string, rest: seq<string>)
    ensures Join(["Shot Map", "for " + league] + rest, " ")
         == if rest == [] then "Shot Map for " + league else "Shot Map for " + league + (" " + Join(rest, " "))
  {
    assert ["Shot Map", "for " + league] + rest == ["Shot Map"] + (["for " + league] + rest);
    JoinCons("Shot Map", ["for " + league] + rest, " ");
    JoinCons("for " + league, rest, " ");
  }

  /** The title always begins "Shot Map for <league>", and it is exactly that
      when no filter after the league is active. */
  lemma TitleStart(sel: Selections)
    ensures |Title(sel)| >= |"Shot Map for " + sel.league|
    ensures Title(sel)[..|"Shot Map for " + sel.league|] == "Shot Map for " + sel.league
    ensures Title(sel) == "Shot Map for " + sel.league <==> forall cl :: !Active(sel, cl)
  {
    var rest := Texts(sel, ActiveClauses(sel, CLAUSE_ORDER));
    TitleClausesInOrder(sel);
    JoinTitle(sel.league, rest);
    NoClauseIffInactive(sel);
    var head := "Shot Map for " + sel.league;
    if rest != [] {
      assert |Title(sel)| > |head|;
    }
  }

  // ---------------------------------------------------------------- legend

  /** Marker colours by outcome, in the dictionary's order. */
  const PALETTE: seq<(string, string)> := [
    ("Goal", "yellow"),
    ("Missed Shot", "red"),
    ("Blocked Shot", "gray"),
    ("Saved Shot", "blue"),
    ("Shot On Post", "orange"),
    ("Unknown", "purple")
  ]

  const FALLBACK_COLOR := "black"

  const PALETTE_KEYS: seq<string> := seq(|PALETTE|, i requires 0 <= i < |PALETTE| => PALETTE[i].0)

  /** `palette.get(key)`: the colour stored under that key. The palette keys
      are distinct, so which of several entries would win does not arise. */
  function Lookup(palette: seq<(string, string)>, key: string): (r: Option<string>)
    ensures r.None? <==> forall i :: 0 <= i < |palette| ==> palette[i].0 != key
    ensures r.Some? ==> exists i :: 0 <= i < |palette| && palette[i] == (key, r.value)
  {
    if palette == [] then None
    else if palette[0].0 == key then Some(palette[0].1)
    else
      var r := Lookup(palette[1..], key);
      assert forall i :: 0 < i < |palette| ==> palette[i] == palette[1..][i - 1];
      r
  }

  /** `result_colors.get(result, 'black')`. */
  function ColorFor(result: string): (r: string)
    ensures (exists i :: 0 <= i < |PALETTE| && PALETTE[i] == (result, r))
         || (r == FALLBACK_COLOR && forall i :: 0 <= i < |PALETTE| ==> PALETTE[i].0 != result)
  {
    match Lookup(PALETTE, result)
    case Some(color) => color
    case None => FALLBACK_COLOR
  }

  /** Some filtered row has this outcome. */
  predicate Occurs(shots: seq<Shot>, result: string)
  {
    exists s :: s in shots && s.result == Some(result)
  }

  datatype LegendEntry = LegendEntry(outcome: string, color: string)

  /** One handle per palette key, in palette order, for the outcomes present. */
  function Legend(shots: seq<Shot>): seq<LegendEntry>
  {
    var present := Filter(PALETTE_KEYS, k => Occurs(shots, k));
    seq(|present|, i requires 0 <= i < |present| => LegendEntry(present[i], ColorFor(present[i])))
  }

  function Labels(legend: seq<LegendEntry>): seq<string>
  {
    seq(|legend|, i requires 0 <= i < |legend| => legend[i].outcome)
  }

  /** The legend lists exactly the palette outcomes that occur among the
      shots, in palette order; an outcome outside the palette gets no entry. */
  lemma LegendExact(shots: seq<Shot>)
    ensures IsSubsequence(Labels(Legend(shots)), PALETTE_KEYS)
    ensures forall k :: k in Labels(Legend(shots)) <==> k in PALETTE_KEYS && Occurs(shots, k)
  {
    var present := Filter(PALETTE_KEYS, k => Occurs(shots, k));
    assert Labels(Legend(shots)) == present;
  }

  /** Each entry has the palette colour of its outcome, so the fallback
      colour is never used. */
  lemma LegendColors(shots: seq<Shot>)
    ensures forall e :: e in Legend(shots) ==>
      (exists i :: 0 <= i < |PALETTE| && PALETTE[i] == (e.outcome, e.color)) && e.color != FALLBACK_COLOR
  {
    var present := Filter(PALETTE_KEYS, k => Occurs(shots, k));
    forall e | e in Legend(shots)
      ensures exists i :: 0 <= i < |PALETTE| && PALETTE[i] == (e.outcome, e.color)
      ensures e.color != FALLBACK_COLOR
    {
      var j :| 0 <= j < |present| && e == LegendEntry(present[j], ColorFor(present[j]));
      assert present[j] in present;
      PaletteColor(present[j]);
    }
  }

  /** A palette key gets its own palette colour, never the fallback. */
  lemma PaletteColor(key: string)
    requires key in PALETTE_KEYS
    ensures exists i :: 0 <= i < |PALETTE| && PALETTE[i] == (key, ColorFor(key))
    ensures ColorFor(key) != FALLBACK_COLOR
  {
    var j :| 0 <= j < |PALETTE_KEYS| && PALETTE_KEYS[j] == key;
    assert PALETTE[j].0 == key;
    var i :| 0 <= i < |PALETTE| && PALETTE[i] == (key, ColorFor(key));
    assert PALETTE[i].1 in ["yellow", "red", "gray", "blue", "orange", "purple"];
  }

  // ---------------------------------------------------------------- page

  const NO_SHOTS_MESSAGE := "No shots match the selected filters."

  datatype View = NoShots(message: string) | Map(title: string, legend: seq<LegendEntry>, shots: seq<Shot>)

  /** The shot count in the sidebar and the main view. */
  datatype Page = Page(shotCount: nat, view: View)

  /** The count always shows; an empty selection shows only the message. */
  function Render(shots: seq<Shot>, sel: Selections): (p: Page)
    ensures p.shotCount == |shots|
    ensures p.view.NoShots? <==> shots == []
    ensures p.view.NoShots? ==> p.view.message == NO_SHOTS_MESSAGE
    ensures p.view.Map? ==> p.view.shots == shots && p.view.shots != []
    ensures p.view.Map? ==> p.view.title == Title(sel) && p.view.legend == Legend(shots)
  {
    if shots == [] then Page(0, NoShots(NO_SHOTS_MESSAGE))
    else Page(|shots|, Map(Title(sel), Legend(shots), shots))
  }

  /** When every shot is a goal, the legend is at most the yellow "Goal"
      entry. */
  lemma LegendOfGoals(shots: seq<Shot>)
    requires forall s :: s in shots ==> s.result == Some("Goal")
    ensures forall e :: e in Legend(shots) ==> e == LegendEntry("Goal", "yellow")
  {
    forall e | e in Legend(shots)
      ensures e == LegendEntry("Goal", "yellow")
    {
      GoalEntry(shots, e);
    }
  }

  lemma GoalEntry(shots: seq<Shot>, e: LegendEntry)
    requires forall s :: s in shots ==> s.result == Some("Goal")
    requires e in Legend(shots)
    ensures e == LegendEntry("Goal", "yellow")
  {
    var present := Filter(PALETTE_KEYS, k => Occurs(shots, k));
    var j :| 0 <= j < |present| && e == LegendEntry(present[j], ColorFor(present[j]));
    assert present[j] in present;
    var s :| s in shots && s.result == Some(present[j]);
    assert present[j] == "Goal";
    assert ColorFor("Goal") == "yellow";
  }

  /** Premier League, all teams, goals only: every plotted row is a Premier
      League goal, and the legend is at most the yellow "Goal" entry. */
  lemma GoalsOnlyScenario(df: seq<Shot>, sel: Selections)
    requires sel.league == "ENG-Premier League" && sel.teams == [ALL] && sel.results == ["Goal"]
    requires sel.players == [] && sel.games == [] && sel.situations == [] && sel.bodyParts == []
    ensures forall s :: s in Cascade(df, sel) ==> s.league == "ENG-Premier League" && s.result == Some("Goal")
    ensures forall e :: e in Legend(Cascade(df, sel)) ==> e == LegendEntry("Goal", "yellow")
  {
    var shots := Cascade(df, sel);
    forall s | s in shots
      ensures s.league == "ENG-Premier League" && s.result == Some("Goal")
    {
      GoalRow(df, sel, s);
    }
    LegendOfGoals(shots);
  }

  lemma GoalRow(df: seq<Shot>, sel: Selections, s: Shot)
    requires sel.results == ["Goal"]
    requires s in Cascade(df, sel)
    ensures s.league == sel.league && s.result == Some("Goal")
  {
    CascadeRows(df, sel, s);
  }
}
