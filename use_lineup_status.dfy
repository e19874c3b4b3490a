/**
 * The lineup hook: one report row per matchup of the week, the starters taken
 * from the matchup or, failing that, from the roster, and the rows grouped by
 * status. The bye set is a parameter (the hook fetches it from the schedule
 * service).
 */
module UseLineupStatus {
  import opened Wrappers
  import opened Entities
  import opened NflData
  import opened LineupRules

  /**
   * `m.starters || roster?.starters || []`: the matchup's own list whenever it
   * has one (even an empty one), else the roster's, else nothing.
   */
  function StartersFor(m: Matchup, roster: Option<Roster>): seq<string> {
    if m.starters.Some? then m.starters.value
    else if roster.Some? then roster.value.starters
    else []
  }

  /** The report row of one matchup. */
  function RowFor(m: Matchup, userById: map<string, User>, rosterById: map<nat, Roster>,
                  players: Catalog, byes: set<string>): TeamRow
  {
    var roster := RosterOf(m, rosterById);
    ReportRow(m, OwnerOf(roster, userById), TeamOutcome(StartersFor(m, roster), players, byes))
  }

  /** Nothing is reported without a catalog or without matchups. */
  predicate NothingToReport(matchups: Option<seq<Matchup>>, players: Option<Catalog>) {
    players.None? || matchups.None? || |matchups.value| == 0
  }

  /** The `teams` memo as a value: one row per matchup, in matchup order. */
  function TeamsOf(users: seq<User>, rosters: seq<Roster>, matchups: Option<seq<Matchup>>,
                   players: Option<Catalog>, byes: set<string>): seq<TeamRow>
  {
    if NothingToReport(matchups, players) then []
    else
      var ms := matchups.value;
      seq(|ms|, i requires 0 <= i < |ms| =>
        RowFor(ms[i], UserIndex(users), RosterIndex(rosters), players.value, byes))
  }

  /**
   * The `teams` memo: the loop over the matchups, each lineup checked by the
   * shared per-matchup body and its row appended to `out`.
   */
  method Teams(users: seq<User>, rosters: seq<Roster>, matchups: Option<seq<Matchup>>,
               players: Option<Catalog>, byes: set<string>) returns (out: seq<TeamRow>)
    ensures out == TeamsOf(users, rosters, matchups, players, byes)
  {
    if players.None? || matchups.None? || |matchups.value| == 0 {
      return [];
    }
    var userById := UserIndex(users);
    var rosterById := RosterIndex(rosters);
    var ms := matchups.value;
    out := [];
    for i := 0 to |ms|
      invariant |out| == i
      invariant forall j :: 0 <= j < i ==> out[j] == RowFor(ms[j], userById, rosterById, players.value, byes)
    {
      var m := ms[i];
      var roster := RosterOf(m, rosterById);
      var owner := OwnerOf(roster, userById);
      var rawStarters := StartersFor(m, roster);
      var status, flagged := EvaluateLineup(rawStarters, players.value, byes);
      out := out + [ReportRow(m, owner, Outcome(status, flagged))];
    }
  }

  /**
   * The rows of the report: none without a catalog or matchups; otherwise one
   * per matchup, in order, carrying that matchup's roster and matchup ids and
   * the outcome of checking the starters the matchup (or its roster) lists.
   */
  lemma TeamsRows(users: seq<User>, rosters: seq<Roster>, matchups: Option<seq<Matchup>>,
                  players: Option<Catalog>, byes: set<string>)
    ensures NothingToReport(matchups, players) ==> TeamsOf(users, rosters, matchups, players, byes) == []
    ensures !NothingToReport(matchups, players) ==>
              var rows, ms := TeamsOf(users, rosters, matchups, players, byes), matchups.value;
              |rows| == |ms| &&
              forall i :: 0 <= i < |ms| ==>
                rows[i].rosterId == ms[i].rosterId && rows[i].matchupId == ms[i].matchupId &&
                Outcome(rows[i].status, rows[i].flagged) ==
                  TeamOutcome(StartersFor(ms[i], RosterOf(ms[i], RosterIndex(rosters))), players.value, byes)
  {
  }

  /**
   * The roster's starters are consulted only when the matchup has no list at
   * all: a matchup with an empty list is reported OK with no flags, whatever
   * its roster holds.
   */
  lemma EmptyMatchupListIsOk(m: Matchup, roster: Option<Roster>, players: Catalog, byes: set<string>)
    requires m.starters == Some([])
    ensures StartersFor(m, roster) == []
    ensures TeamOutcome(StartersFor(m, roster), players, byes) == Outcome(OK, [])
  {
    assert !HasEmptySlot([]);
  }

  /** Without a matchup list the roster's starters are checked. */
  lemma RosterFallback(m: Matchup, r: Roster)
    requires m.starters.None?
    ensures StartersFor(m, Some(r)) == r.starters
    ensures StartersFor(m, None) == []
  {
  }

  /**
   * The owner shown: the last user listed under the owner id of the matchup's
   * roster; without a roster, an owner id or such a user, "Team undefined" and
   * no thumbnail.
   */
  lemma RowOwner(m: Matchup, users: seq<User>, rosters: seq<Roster>, players: Catalog, byes: set<string>)
    ensures var roster := RosterOf(m, RosterIndex(rosters));
            var row := RowFor(m, UserIndex(users), RosterIndex(rosters), players, byes);
            OwnerOf(roster, UserIndex(users)).Some? ==>
              exists i :: IsLastWithKey(users, (u: User) => u.userId, i) &&
                          Some(users[i].userId) == roster.value.ownerId &&
                          row.name == DisplayTeamName(Some(users[i]))
    ensures var row := RowFor(m, UserIndex(users), RosterIndex(rosters), players, byes);
            OwnerOf(RosterOf(m, RosterIndex(rosters)), UserIndex(users)).None? ==>
              row.name == "Team undefined" && row.avatar.None?
  {
    var roster := RosterOf(m, RosterIndex(rosters));
    if OwnerOf(roster, UserIndex(users)).Some? {
      var id := roster.value.ownerId.value;
      var i :| IsLastWithKey(users, (u: User) => u.userId, i) && users[i].userId == id &&
               UserIndex(users)[id] == users[i];
    }
  }
}
