/**
 * The older lineup checker component: the same per-matchup rules as the hook,
 * but the bye set comes from the static 2025 table, the starters only from the
 * matchup itself, and a clicked team is paired with its matchup by a search.
 */
module LineupChecker {
  import opened Wrappers
  import opened Text
  import opened Entities
  import opened NflData
  import opened LineupRules
  import UseLineupStatus

  /**
   * `new Set(BYE_MAP_2025[Number(week)] || [])`: the teams the static table
   * lists for the week; none for a week the table does not list or a week
   * that is not a number (`None`).
   */
  function ByeSetForWeek(week: Option<int>): (byes: set<string>)
    ensures week.Some? && week.value in ByeMap2025 ==>
              forall t :: t in byes <==> t in ByeMap2025[week.value]
    ensures week.None? || week.value !in ByeMap2025 ==> byes == {}
  {
    if week.Some? && week.value in ByeMap2025 then set t | t in ByeMap2025[week.value] else {}
  }

  /** `m.starters || []`: no fallback to the roster. */
  function StartersOf(m: Matchup): seq<string> {
    if m.starters.Some? then m.starters.value else []
  }

  /** The report row of one matchup. */
  function RowFor(m: Matchup, userById: map<string, User>, rosterById: map<nat, Roster>,
                  players: Catalog, byes: set<string>): TeamRow
  {
    var roster := RosterOf(m, rosterById);
    ReportRow(m, OwnerOf(roster, userById), TeamOutcome(StartersOf(m), players, byes))
  }

  /** The `teams` memo as a value: nothing without a catalog, else one row per matchup. */
  function TeamsOf(users: seq<User>, rosters: seq<Roster>, matchups: seq<Matchup>,
                   players: Option<Catalog>, byes: set<string>): seq<TeamRow>
  {
    if players.None? then []
    else
      seq(|matchups|, i requires 0 <= i < |matchups| =>
        RowFor(matchups[i], UserIndex(users), RosterIndex(rosters),
               players.value, byes))
  }

  /** The `teams` memo: the loop over the matchups, appending one row each. */
  method Teams(users: seq<User>, rosters: seq<Roster>, matchups: seq<Matchup>,
               players: Option<Catalog>, week: Option<int>) returns (out: seq<TeamRow>)
    ensures out == TeamsOf(users, rosters, matchups, players, ByeSetForWeek(week))
  {
    if players.None? {
      return [];
    }
    var byes := ByeSetForWeek(week);
    var userById := UserIndex(users);
    var rosterById := RosterIndex(rosters);
    out := [];
    for i := 0 to |matchups|
      invariant |out| == i
      invariant forall j :: 0 <= j < i ==> out[j] == RowFor(matchups[j], userById, rosterById, players.value, byes)
    {
      var m := matchups[i];
      var owner := OwnerOf(RosterOf(m, rosterById), userById);
      var status, flagged := EvaluateLineup(StartersOf(m), players.value, byes);
      out := out + [ReportRow(m, owner, Outcome(status, flagged))];
    }
  }

  /**
   * The rows of the component: none without a catalog; otherwise one per
   * matchup, in order, with its ids and the outcome of its own starter list.
   */
  lemma TeamsRows(users: seq<User>, rosters: seq<Roster>, matchups: seq<Matchup>,
                  players: Option<Catalog>, byes: set<string>)
    ensures players.None? ==> TeamsOf(users, rosters, matchups, players, byes) == []
    ensures players.Some? ==>
              var rows := TeamsOf(users, rosters, matchups, players, byes);
              |rows| == |matchups| &&
              forall i :: 0 <= i < |matchups| ==>
                rows[i].rosterId == matchups[i].rosterId && rows[i].matchupId == matchups[i].matchupId &&
                Outcome(rows[i].status, rows[i].flagged) == TeamOutcome(StartersOf(matchups[i]), players.value, byes)
  {
  }

  /**
   * The two copies agree on every matchup that lists its starters, given the
   * same bye set; a matchup without a list is OK here, while the hook checks
   * its roster's starters instead.
   */
  lemma AgreesWithHook(m: Matchup, userById: map<string, User>, rosterById: map<nat, Roster>,
                       players: Catalog, byes: set<string>)
    ensures m.starters.Some? ==>
              RowFor(m, userById, rosterById, players, byes) ==
              UseLineupStatus.RowFor(m, userById, rosterById, players, byes)
    ensures m.starters.None? ==> RowFor(m, userById, rosterById, players, byes).status == OK
  {
    if m.starters.None? {
      assert !HasEmptySlot([]);
    }
  }

  /** A matchup without a starter list whose roster starts a player out for the season. */
  lemma CopiesDisagree()
    ensures var m := Matchup(1, Some(1), None, [], 0.0);
            var r := Roster(1, None, ["p"], ["p"], 0, 0, 0, 0, 0);
            var players := map["p" := Player("p", "A", "B", "WR", "", "IR", "")];
            RowFor(m, map[], map[1 := r], players, {}).status == OK &&
            UseLineupStatus.RowFor(m, map[], map[1 := r], players, {}).status == INCOMPLETE
  {
    var m := Matchup(1, Some(1), None, [], 0.0);
    var r := Roster(1, None, ["p"], ["p"], 0, 0, 0, 0, 0);
    var p := Player("p", "A", "B", "WR", "", "IR", "");
    var players := map["p" := p];
    assert !HasEmptySlot([]);
    assert !EmptySlot("p");
    assert !HasEmptySlot(["p"]);
    assert ToLower("IR") == "ir";
    assert ClassifyInjury(Some(p)) == INCOMPLETE;
    assert StarterVerdict("p", players, {}).Stop?;
    assert Verdicts(["p"], players, {}) == [StarterVerdict("p", players, {})];
  }

  /** `getMatchupForTeam`: the first matchup of the team's roster; none for no team or no matchups. */
  function MatchupForTeam(team: Option<TeamRow>, matchups: Option<seq<Matchup>>): (r: Option<Matchup>)
    ensures r.Some? ==> team.Some? && matchups.Some? && r.value in matchups.value &&
                        r.value.rosterId == team.value.rosterId
    ensures team.Some? && matchups.Some? &&
            (exists i :: 0 <= i < |matchups.value| && matchups.value[i].rosterId == team.value.rosterId)
            ==> r.Some?
    ensures r.Some? ==> exists i :: 0 <= i < |matchups.value| && matchups.value[i] == r.value &&
                                    forall k :: 0 <= k < i ==> matchups.value[k].rosterId != team.value.rosterId
  {
    if team.None? || matchups.None? then None
    else
      var r := Find(matchups.value, MatchupOf(team.value.rosterId));
      if r.Some? then FindFirst(matchups.value, MatchupOf(team.value.rosterId)); r else r
  }
}
