/**
 * The rivalry matrix: lifetime head-to-head records against every opponent
 * the user has met across the league history. Each fetched week of each past
 * league yields at most one game (the user's matchup against the other roster
 * sharing its matchup id); a game counts a win or a loss against the
 * opponent roster's owner, in total and per season, and a tie only puts the
 * opponent on the list. The list is ordered by games decided, most first.
 */
module RivalryMatrix {
  import opened Wrappers
  import opened Entities
  import opened Sorting
  import opened JsObject
  import opened SleeperEngine

  /** The result of one game from the user's side. */
  datatype Outcome = Win | Loss | Tie

  /** One game against an opponent owner, in a season. */
  datatype Game = Game(opponentId: string, season: int, outcome: Outcome)

  /** A season's record against one opponent. */
  datatype WL = WL(wins: nat, losses: nat)

  /** A row of the matrix (the `avatar` field is always null and is not modelled). */
  datatype Rival = Rival(id: string, name: string, totalWins: nat, totalLosses: nat, years: map<int, WL>)

  /** Every league of the history has a well-formed roster index. */
  ghost predicate Indexed(history: seq<HistoryEntry>) {
    forall i :: 0 <= i < |history| ==> Valid(history[i].rosters)
  }

  // ---------------------------------------------------------------------
  // One week

  /** `m.matchup_id === myMatch.matchup_id && m.roster_id !== myRoster.roster_id`. */
  function IsOpponent(matchupId: Option<int>, mine: nat): Matchup -> bool {
    (m: Matchup) => m.matchupId == matchupId && m.rosterId != mine
  }

  /** `r.roster_id === opponentMatch.roster_id`. */
  function HasRosterId(rid: nat): Roster -> bool {
    (r: Roster) => r.rosterId == rid
  }

  function OutcomeOf(mine: real, theirs: real): Outcome {
    if mine > theirs then Win else if mine < theirs then Loss else Tie
  }

  /**
   * The game a week yields for the user's roster `mine` in `season`, with
   * `owners` the values of the league's owner index; nothing when the week
   * has no data, the user has no matchup or a falsy matchup id, no other
   * roster shares it, or that roster is not in the index with a truthy owner.
   */
  function WeekGame(season: int, mine: nat, owners: seq<Roster>, week: Week): Option<Game> {
    if week.None? then None
    else
      var myMatch := Find(week.value, MatchupOf(mine));
      if myMatch.None? || myMatch.value.matchupId.None? || myMatch.value.matchupId.value == 0 then None
      else
        var opponentMatch := Find(week.value, IsOpponent(myMatch.value.matchupId, mine));
        if opponentMatch.None? then None
        else
          var opponentRoster := Find(owners, HasRosterId(opponentMatch.value.rosterId));
          if opponentRoster.None? || !HasOwner(opponentRoster.value) then None
          else Some(Game(opponentRoster.value.ownerId.value, season, OutcomeOf(myMatch.value.points, opponentMatch.value.points)))
  }

  // ---------------------------------------------------------------------
  // The games of the history

  /** The games of the weeks of one league, in week order. */
  function LeagueGames(season: int, mine: nat, owners: seq<Roster>, weeks: seq<Week>): seq<Game> {
    if weeks == [] then []
    else
      var g := WeekGame(season, mine, owners, weeks[|weeks| - 1]);
      LeagueGames(season, mine, owners, weeks[..|weeks| - 1]) + (if g.Some? then [g.value] else [])
  }

  /** The games of one league: none without fetched weeks or a user roster. */
  function LeagueOf(e: HistoryEntry, fetched: map<string, seq<Week>>): seq<Game>
    requires Valid(e.rosters)
  {
    if e.leagueId !in fetched || e.roster.None? then []
    else LeagueGames(e.season, e.roster.value.rosterId, Values(e.rosters), fetched[e.leagueId])
  }

  /** The games of the history, league by league. */
  function Games(history: seq<HistoryEntry>, fetched: map<string, seq<Week>>): seq<Game>
    requires Indexed(history)
  {
    if history == [] then []
    else Games(history[..|history| - 1], fetched) + LeagueOf(history[|history| - 1], fetched)
  }

  // ---------------------------------------------------------------------
  // The tallies

  /** The entry created when an opponent is first met. */
  function NewRival(id: string): Rival {
    Rival(id, "User " + id, 0, 0, map[])
  }

  /** `years[season]`, created empty when missing. */
  function YearOf(years: map<int, WL>, season: int): WL {
    if season in years then years[season] else WL(0, 0)
  }

  /** A win or a loss counted in the total and in the season; a tie changes nothing. */
  function Score(r: Rival, season: int, outcome: Outcome): Rival {
    var y := YearOf(r.years, season);
    match outcome
    case Win => r.(totalWins := r.totalWins + 1, years := r.years[season := y.(wins := y.wins + 1)])
    case Loss => r.(totalLosses := r.totalLosses + 1, years := r.years[season := y.(losses := y.losses + 1)])
    case Tie => r
  }

  /** `stats` after one game: the opponent's entry is created if missing, then scored. */
  function Record(stats: Dict<Rival>, g: Game): (r: Dict<Rival>)
    requires Valid(stats)
    ensures Valid(r)
  {
    var id := g.opponentId;
    var met := if id in stats.entries then stats else Put(stats, id, NewRival(id));
    if g.outcome == Tie then met else Put(met, id, Score(met.entries[id], g.season, g.outcome))
  }

  /** `stats` after the games, in order. */
  function Tally(games: seq<Game>): (d: Dict<Rival>)
    ensures Valid(d)
  {
    if games == [] then Empty() else Record(Tally(games[..|games| - 1]), games[|games| - 1])
  }

  /** `(a, b) => (b.totalWins + b.totalLosses) - (a.totalWins + a.totalLosses)`. */
  function ByGamesDesc(r: Rival): real {
    -((r.totalWins + r.totalLosses) as real)
  }

  /** The `matrix` memo: nothing without a history or before any matchups were fetched. */
  function Matrix(history: Option<seq<HistoryEntry>>, fetched: map<string, seq<Week>>): seq<Rival>
    requires history.Some? ==> Indexed(history.value)
  {
    if history.None? || |fetched| == 0 then []
    else Sort(Values(Tally(Games(history.value, fetched))), ByGamesDesc)
  }

  // ---------------------------------------------------------------------
  // Per-season records add up to the totals

  /** Some season of `years`. */
  ghost function Pick(years: map<int, WL>): int
    requires exists s :: s in years
  {
    var s :| s in years; s
  }

  /** The sum of `f` over the seasons of `years`. */
  ghost function Sum(years: map<int, WL>, f: WL -> nat): nat
    decreases years.Keys
  {
    if exists s :: s in years then
      var s := Pick(years);
      f(years[s]) + Sum(years - {s}, f)
    else 0
  }

  function Wins(y: WL): nat {
    y.wins
  }

  function Losses(y: WL): nat {
    y.losses
  }

  /** The season records of a row add up to its totals. */
  ghost predicate Consistent(r: Rival) {
    r.totalWins == Sum(r.years, Wins) && r.totalLosses == Sum(r.years, Losses)
  }

  /** Any season can be taken out of the sum first. */
  lemma {:induction false} SumRemove(years: map<int, WL>, s: int, f: WL -> nat)
    requires s in years
    ensures Sum(years, f) == f(years[s]) + Sum(years - {s}, f)
    decreases years.Keys
  {
    var t := Pick(years);
    if t != s {
      SumRemove(years - {t}, s, f);
      SumRemove(years - {s}, t, f);
      assert years - {t} - {s} == years - {s} - {t};
    }
  }

  /** Replacing one season's record changes the sum by the difference; a missing season counts as 0-0. */
  lemma SumUpdate(years: map<int, WL>, s: int, y: WL, f: WL -> nat)
    requires f(WL(0, 0)) == 0
    ensures f(YearOf(years, s)) <= Sum(years, f)
    ensures Sum(years[s := y], f) == Sum(years, f) - f(YearOf(years, s)) + f(y)
  {
    SumRemove(years[s := y], s, f);
    assert years[s := y] - {s} == years - {s};
    if s in years {
      SumRemove(years, s, f);
    } else {
      assert years - {s} == years;
    }
  }

  /** Scoring a game keeps the season records in step with the totals. */
  lemma ScoreConsistent(r: Rival, season: int, outcome: Outcome)
    requires Consistent(r)
    ensures Consistent(Score(r, season, outcome))
  {
    var y := YearOf(r.years, season);
    if outcome == Win {
      SumUpdate(r.years, season, y.(wins := y.wins + 1), Wins);
      SumUpdate(r.years, season, y.(wins := y.wins + 1), Losses);
    } else if outcome == Loss {
      SumUpdate(r.years, season, y.(losses := y.losses + 1), Wins);
      SumUpdate(r.years, season, y.(losses := y.losses + 1), Losses);
    }
  }

  // ---------------------------------------------------------------------
  // Properties of the tallies

  /** The games against `id` with `outcome`. */
  function Count(games: seq<Game>, id: string, outcome: Outcome): nat {
    if games == [] then 0
    else
      var g := games[|games| - 1];
      Count(games[..|games| - 1], id, outcome) + (if g.opponentId == id && g.outcome == outcome then 1 else 0)
  }

  /** Appending a game is one more `Record`. */
  lemma TallyAppend(games: seq<Game>, g: Option<Game>)
    ensures Tally(games + (if g.Some? then [g.value] else [])) ==
            if g.Some? then Record(Tally(games), g.value) else Tally(games)
  {
    if g.Some? {
      assert (games + [g.value])[..|games|] == games;
    } else {
      assert games + [] == games;
    }
  }

  /** One game adds its opponent's row if missing, scores that row, and leaves the other rows alone. */
  lemma RecordRows(stats: Dict<Rival>, g: Game, id: string)
    requires Valid(stats)
    ensures id in Record(stats, g).entries <==> id in stats.entries || id == g.opponentId
    ensures id != g.opponentId && id in stats.entries ==> Record(stats, g).entries[id] == stats.entries[id]
    ensures id == g.opponentId ==>
              Record(stats, g).entries[id] ==
              Score(if id in stats.entries then stats.entries[id] else NewRival(id), g.season, g.outcome)
  {
  }

  lemma TallyStep(games: seq<Game>)
    requires games != []
    ensures Tally(games) == Record(Tally(games[..|games| - 1]), games[|games| - 1])
  {
  }

  /** Some game of `games` was played against `id`. */
  predicate Met(games: seq<Game>, id: string) {
    games != [] && (Met(games[..|games| - 1], id) || games[|games| - 1].opponentId == id)
  }

  lemma {:induction false} MetMeaning(games: seq<Game>, id: string)
    ensures Met(games, id) <==> exists k :: 0 <= k < |games| && games[k].opponentId == id
  {
    if games != [] {
      var init := games[..|games| - 1];
      MetMeaning(init, id);
      if exists k :: 0 <= k < |init| && init[k].opponentId == id {
        var k :| 0 <= k < |init| && init[k].opponentId == id;
        assert games[k].opponentId == id;
      }
      if exists k :: 0 <= k < |games| && games[k].opponentId == id {
        var k :| 0 <= k < |games| && games[k].opponentId == id;
        if k < |init| {
          assert init[k].opponentId == id;
        }
      }
    }
  }

  /** An opponent has a row exactly when some game was played against them, a tie included. */
  lemma {:induction false} TallyKeys(games: seq<Game>, id: string)
    ensures id in Tally(games).entries <==> Met(games, id)
  {
    if games != [] {
      var init := games[..|games| - 1];
      TallyKeys(init, id);
      TallyStep(games);
      RecordRows(Tally(init), games[|games| - 1], id);
    }
  }

  lemma {:induction false} NoneCounted(games: seq<Game>, id: string, outcome: Outcome)
    requires !Met(games, id)
    ensures Count(games, id, outcome) == 0
  {
    if games != [] {
      NoneCounted(games[..|games| - 1], id, outcome);
    }
  }

  /**
   * A row carries its opponent's id and placeholder name, counts the wins and
   * the losses against that opponent (ties count in neither), and its season
   * records add up to those totals.
   */
  lemma {:induction false} TallyRows(games: seq<Game>, id: string)
    requires id in Tally(games).entries
    ensures var r := Tally(games).entries[id];
            r.id == id && r.name == "User " + id &&
            r.totalWins == Count(games, id, Win) && r.totalLosses == Count(games, id, Loss) &&
            Consistent(r)
  {
    var init, g := games[..|games| - 1], games[|games| - 1];
    var before := Tally(init);
    TallyStep(games);
    RecordRows(before, g, id);
    if g.opponentId != id {
      TallyRows(init, id);
    } else if id in before.entries {
      TallyRows(init, id);
      ScoreConsistent(before.entries[id], g.season, g.outcome);
    } else {
      TallyKeys(init, id);
      NoneCounted(init, id, Win);
      NoneCounted(init, id, Loss);
      assert Consistent(NewRival(id));
      ScoreConsistent(NewRival(id), g.season, g.outcome);
    }
  }

  /** Each entry of `Object.values(stats)` is the row of an opponent met, with its counts. */
  lemma TallyValues(games: seq<Game>, r: Rival)
    requires r in Values(Tally(games))
    ensures r.name == "User " + r.id
    ensures Met(games, r.id)
    ensures r.totalWins == Count(games, r.id, Win) && r.totalLosses == Count(games, r.id, Loss)
    ensures Consistent(r)
  {
    var d := Tally(games);
    var rows := Values(d);
    var i :| 0 <= i < |rows| && rows[i] == r;
    assert d.keys[i] in d.entries;
    TallyRows(games, d.keys[i]);
    TallyKeys(games, d.keys[i]);
  }

  /** `ms[i]` is the first matchup of the user's roster. */
  predicate FirstOfRoster(ms: seq<Matchup>, i: int, mine: nat) {
    0 <= i < |ms| && ms[i].rosterId == mine && forall k :: 0 <= k < i ==> ms[k].rosterId != mine
  }

  /** `ms[j]` is the first matchup of another roster sharing the matchup id of `ms[i]`. */
  predicate FirstOpponent(ms: seq<Matchup>, j: int, i: int, mine: nat) {
    0 <= i < |ms| && 0 <= j < |ms| && ms[j].matchupId == ms[i].matchupId && ms[j].rosterId != mine &&
    forall k :: 0 <= k < j ==> ms[k].matchupId != ms[i].matchupId || ms[k].rosterId == mine
  }

  /**
   * `g` is the game of the user's matchup `ms[i]` against `ms[j]`, whose
   * roster `r` names the opponent as owner.
   */
  predicate CountedGame(ms: seq<Matchup>, owners: seq<Roster>, mine: nat, g: Game, i: int, j: int, r: Roster) {
    FirstOfRoster(ms, i, mine) && FirstOpponent(ms, j, i, mine) && r in owners &&
    ms[i].matchupId.Some? && ms[i].matchupId.value != 0 &&
    r.rosterId == ms[j].rosterId && r.ownerId == Some(g.opponentId) &&
    (g.outcome == Win <==> ms[i].points > ms[j].points) &&
    (g.outcome == Loss <==> ms[i].points < ms[j].points)
  }

  /**
   * The week's game: the user's first matchup of the week has a non-zero
   * matchup id, the first matchup of another roster to share that id is the
   * opponent's, and that roster is indexed with the opponent as owner.
   */
  lemma WeekGameMeaning(season: int, mine: nat, owners: seq<Roster>, week: Week)
    requires WeekGame(season, mine, owners, week).Some?
    ensures var g := WeekGame(season, mine, owners, week).value;
            week.Some? && g.season == season && g.opponentId != "" &&
            exists i, j, r :: CountedGame(week.value, owners, mine, g, i, j, r)
  {
    var ms := week.value;
    var i := MyMatchIndex(ms, mine);
    var j := OpponentIndex(ms, i, mine);
    var r := Find(owners, HasRosterId(ms[j].rosterId)).value;
    var g := WeekGame(season, mine, owners, week).value;
    assert g == Game(r.ownerId.value, season, OutcomeOf(ms[i].points, ms[j].points));
    assert CountedGame(ms, owners, mine, g, i, j, r);
  }

  /** Where `find` meets the user's matchup. */
  lemma MyMatchIndex(ms: seq<Matchup>, mine: nat) returns (i: int)
    requires Find(ms, MatchupOf(mine)).Some?
    ensures FirstOfRoster(ms, i, mine) && ms[i] == Find(ms, MatchupOf(mine)).value
  {
    FindFirst(ms, MatchupOf(mine));
    i :| 0 <= i < |ms| && ms[i] == Find(ms, MatchupOf(mine)).value && forall k :: 0 <= k < i ==> !MatchupOf(mine)(ms[k]);
  }

  /** Where `find` meets the opponent's matchup. */
  lemma OpponentIndex(ms: seq<Matchup>, i: int, mine: nat) returns (j: int)
    requires 0 <= i < |ms| && Find(ms, IsOpponent(ms[i].matchupId, mine)).Some?
    ensures FirstOpponent(ms, j, i, mine) && ms[j] == Find(ms, IsOpponent(ms[i].matchupId, mine)).value
  {
    FindFirst(ms, IsOpponent(ms[i].matchupId, mine));
    j :| 0 <= j < |ms| && ms[j] == Find(ms, IsOpponent(ms[i].matchupId, mine)).value &&
         forall k :: 0 <= k < j ==> !IsOpponent(ms[i].matchupId, mine)(ms[k]);
  }

  /** A week is skipped when it has no data, the user has no matchup in it, or the user's matchup id is falsy. */
  lemma WeekSkipped(season: int, mine: nat, owners: seq<Roster>, week: Week)
    requires week.None? ||
             (forall i :: 0 <= i < |week.value| ==> week.value[i].rosterId != mine) ||
             (var m := Find(week.value, MatchupOf(mine)); m.Some? && (m.value.matchupId.None? || m.value.matchupId == Some(0)))
    ensures WeekGame(season, mine, owners, week).None?
  {
    if week.Some? && forall i :: 0 <= i < |week.value| ==> week.value[i].rosterId != mine {
      assert Find(week.value, MatchupOf(mine)).None?;
    }
  }

  /** A week whose user matchup has no partner under the same id, or whose partner roster has no owner, is skipped. */
  lemma OpponentSkipped(season: int, mine: nat, owners: seq<Roster>, week: Week)
    requires week.Some?
    requires var m := Find(week.value, MatchupOf(mine));
             m.Some? &&
             ((forall j :: 0 <= j < |week.value| ==>
                 week.value[j].matchupId != m.value.matchupId || week.value[j].rosterId == mine) ||
              (var o := Find(week.value, IsOpponent(m.value.matchupId, mine));
               o.Some? && forall k :: 0 <= k < |owners| && owners[k].rosterId == o.value.rosterId ==> !HasOwner(owners[k])))
    ensures WeekGame(season, mine, owners, week).None?
  {
    var m := Find(week.value, MatchupOf(mine));
    var o := Find(week.value, IsOpponent(m.value.matchupId, mine));
    if o.Some? {
      var r := Find(owners, HasRosterId(o.value.rosterId));
      if r.Some? {
        var k :| 0 <= k < |owners| && owners[k] == r.value;
      }
    }
  }

  /** The matrix lists every row of the tallies once, ordered by games decided, most first. */
  lemma MatrixOrder(history: Option<seq<HistoryEntry>>, fetched: map<string, seq<Week>>)
    requires history.Some? ==> Indexed(history.value)
    ensures history.None? || |fetched| == 0 ==> Matrix(history, fetched) == []
    ensures history.Some? && |fetched| > 0 ==>
            var m := Matrix(history, fetched);
            var rows := Values(Tally(Games(history.value, fetched)));
            multiset(m) == multiset(rows) &&
            forall i, j :: 0 <= i < j < |m| ==>
              m[i].totalWins + m[i].totalLosses >= m[j].totalWins + m[j].totalLosses
  {
    if history.Some? && |fetched| > 0 {
      var m := Matrix(history, fetched);
      forall i, j | 0 <= i < j < |m| ensures m[i].totalWins + m[i].totalLosses >= m[j].totalWins + m[j].totalLosses {
        assert ByGamesDesc(m[i]) <= ByGamesDesc(m[j]);
      }
    }
  }

  /** Opponents with the same number of decided games keep the order in which they were first met. */
  lemma MatrixStable(history: seq<HistoryEntry>, fetched: map<string, seq<Week>>, v: real)
    requires Indexed(history) && |fetched| > 0
    ensures WithKey(Matrix(Some(history), fetched), ByGamesDesc, v) ==
            WithKey(Values(Tally(Games(history, fetched))), ByGamesDesc, v)
  {
    SortStable(Values(Tally(Games(history, fetched))), ByGamesDesc, v);
  }

  /**
   * Every row of the matrix is an opponent met in some game: it counts the
   * wins and losses against that opponent, and its season records add up to them.
   */
  lemma MatrixRows(history: seq<HistoryEntry>, fetched: map<string, seq<Week>>, r: Rival)
    requires Indexed(history) && |fetched| > 0
    requires r in Matrix(Some(history), fetched)
    ensures var games := Games(history, fetched);
            r.name == "User " + r.id &&
            Met(games, r.id) &&
            r.totalWins == Count(games, r.id, Win) && r.totalLosses == Count(games, r.id, Loss) &&
            Consistent(r)
  {
    var games := Games(history, fetched);
    var rows := Values(Tally(games));
    assert r in multiset(Sort(rows, ByGamesDesc));
    TallyValues(games, r);
  }

  // ---------------------------------------------------------------------
  // The computation

  /** `totalWins++` or `totalLosses++`, with the season's entry created if missing and bumped alike. */
  method CountGame(rival: Rival, season: int, outcome: Outcome) returns (r: Rival)
    ensures r == Score(rival, season, outcome)
  {
    r := rival;
    if outcome == Win {
      r := r.(totalWins := r.totalWins + 1);
      if season !in r.years {
        r := r.(years := r.years[season := WL(0, 0)]);
      }
      r := r.(years := r.years[season := r.years[season].(wins := r.years[season].wins + 1)]);
    } else if outcome == Loss {
      r := r.(totalLosses := r.totalLosses + 1);
      if season !in r.years {
        r := r.(years := r.years[season := WL(0, 0)]);
      }
      r := r.(years := r.years[season := r.years[season].(losses := r.years[season].losses + 1)]);
    }
  }

  /** The updates of `stats` for one game: create the opponent's entry if missing, then count a win or a loss. */
  method Meet(stats: Dict<Rival>, g: Game) returns (result: Dict<Rival>)
    requires Valid(stats)
    ensures result == Record(stats, g)
  {
    var id := g.opponentId;
    result := stats;
    if id !in result.entries {
      result := Put(result, id, NewRival(id));
    }
    if g.outcome != Tie {
      var rival := CountGame(result.entries[id], g.season, g.outcome);
      result := Put(result, id, rival);
    }
  }

  /** `leagueMatchups.forEach` over one league's fetched weeks, continuing from the games `before`. */
  method PlayLeague(stats: Dict<Rival>, ghost before: seq<Game>, season: int, mine: nat, owners: seq<Roster>, weeks: seq<Week>)
    returns (result: Dict<Rival>)
    requires stats == Tally(before)
    ensures result == Tally(before + LeagueGames(season, mine, owners, weeks))
  {
    result := stats;
    assert before + LeagueGames(season, mine, owners, weeks[..0]) == before;
    for j := 0 to |weeks|
      invariant result == Tally(before + LeagueGames(season, mine, owners, weeks[..j]))
    {
      var game := WeekGame(season, mine, owners, weeks[j]);
      PlayedStep(before, season, mine, owners, weeks, j);
      if game.Some? {
        result := Meet(result, game.value);
      }
    }
    assert weeks[..|weeks|] == weeks;
  }

  /** One more week records its game, if any, on top of the tallies of the weeks before it. */
  lemma PlayedStep(before: seq<Game>, season: int, mine: nat, owners: seq<Roster>, weeks: seq<Week>, j: nat)
    requires j < |weeks|
    ensures var played, game := before + LeagueGames(season, mine, owners, weeks[..j]), WeekGame(season, mine, owners, weeks[j]);
            Tally(before + LeagueGames(season, mine, owners, weeks[..j + 1])) ==
            if game.Some? then Record(Tally(played), game.value) else Tally(played)
  {
    var played := LeagueGames(season, mine, owners, weeks[..j]);
    var game := WeekGame(season, mine, owners, weeks[j]);
    assert weeks[..j + 1][..j] == weeks[..j];
    TallyAppend(before + played, game);
    assert before + (played + (if game.Some? then [game.value] else [])) ==
           (before + played) + (if game.Some? then [game.value] else []);
  }

  lemma GamesStep(history: seq<HistoryEntry>, i: nat, fetched: map<string, seq<Week>>)
    requires Indexed(history) && i < |history|
    ensures Indexed(history[..i]) && Indexed(history[..i + 1])
    ensures Games(history[..i + 1], fetched) == Games(history[..i], fetched) + LeagueOf(history[i], fetched)
  {
    assert history[..i + 1][..i] == history[..i];
  }

  /** `leagueHistory.forEach` over the fetched weeks, then the sort. */
  method ComputeMatrix(history: Option<seq<HistoryEntry>>, fetched: map<string, seq<Week>>) returns (matrix: seq<Rival>)
    requires history.Some? ==> Indexed(history.value)
    ensures matrix == Matrix(history, fetched)
  {
    if history.None? || |fetched| == 0 {
      return [];
    }
    var leagues := history.value;
    var stats: Dict<Rival> := Empty();
    for i := 0 to |leagues|
      invariant stats == Tally(Games(leagues[..i], fetched))
    {
      var league := leagues[i];
      GamesStep(leagues, i, fetched);
      if league.leagueId in fetched && league.roster.Some? {
        stats := PlayLeague(stats, Games(leagues[..i], fetched), league.season, league.roster.value.rosterId,
                            Values(league.rosters), fetched[league.leagueId]);
      } else {
        assert Games(leagues[..i], fetched) + [] == Games(leagues[..i], fetched);
      }
    }
    assert leagues[..|leagues|] == leagues;
    matrix := Sort(Values(stats), ByGamesDesc);
  }
}
