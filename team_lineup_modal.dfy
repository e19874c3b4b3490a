/**
 * The lineup detail dialog: every starter slot of one matchup classified on
 * its own (rather than by the stopping scan of the checkers), then listed in
 * position order.
 */
module TeamLineupModal {
  import opened Wrappers
  import opened Text
  import opened Entities
  import opened NflData
  import opened Sorting
  import opened LineupRules

  /** One line of the dialog. `reason` is null for a healthy player without status text. */
  datatype Detail = Detail(
    pid: string,
    name: string,
    position: string,
    status: Status,
    reason: Option<string>,
    isEmpty: bool,
    isDefense: bool)

  /** The slot layout used when the league does not send one. */
  const DefaultPositions: seq<string> := ["QB", "RB", "RB", "WR", "WR", "TE", "FLEX", "FLEX", "DEF", "K"]

  /** `league?.roster_positions || default`: the league's layout when it sends one. */
  function PositionsFor(leaguePositions: Option<seq<string>>): (r: seq<string>)
    ensures leaguePositions.None? ==> |r| == 10 && r[0] == "QB" && r[9] == "K"
    ensures leaguePositions.Some? ==> r == leaguePositions.value
  {
    leaguePositions.GetOr(DefaultPositions)
  }

  /** The layout's position for slot `i`, "FLEX" past its end. */
  function SlotPosition(i: nat, positions: seq<string>): string {
    if i < |positions| then positions[i] else "FLEX"
  }

  /** The detail of the starter in slot `i`. */
  function SlotDetail(pid: string, i: nat, players: Catalog, byes: set<string>, positions: seq<string>): Detail {
    if EmptySlot(pid) then
      Detail("empty - " + NatToString(i) + " ", "EMPTY", SlotPosition(i, positions), INCOMPLETE, Some("Empty Slot"), true, false)
    else if IsDstStarterId(pid) then
      var onBye := pid in byes;
      Detail(pid, pid + " D / ST", "DEF", if onBye then INCOMPLETE else OK,
             Some(if onBye then "BYE" else "Active"), false, true)
    else if pid !in players then
      Detail(pid, "EMPTY", SlotPosition(i, positions), INCOMPLETE, Some("Empty Slot"), true, false)
    else
      var p := players[pid];
      var fullName := Trim(p.firstName + " " + p.lastName + " ");
      var position := Or(p.position, SlotPosition(i, positions));
      if p.team != "" && p.team in byes then
        Detail(pid, fullName, position, INCOMPLETE, Some("BYE"), false, false)
      else
        var status := ClassifyInjury(Some(p));
        var text := Or(p.injuryStatus, p.status);
        var reason := if text != "" then Some(text) else if status == INCOMPLETE then Some("Out") else None;
        if IsPup(p) then Detail(pid, fullName, position, INCOMPLETE, Some("PUP"), false, false)
        else Detail(pid, fullName, position, status, reason, false, false)
  }

  /** `starters.map(...)`: one detail per slot, in slot order. */
  function Details(starters: seq<string>, players: Catalog, byes: set<string>, positions: seq<string>): (r: seq<Detail>)
    ensures |r| == |starters|
    ensures forall i :: 0 <= i < |r| ==> r[i] == SlotDetail(starters[i], i, players, byes, positions)
  {
    seq(|starters|, i requires 0 <= i < |starters| => SlotDetail(starters[i], i, players, byes, positions))
  }

  /** `POSITION_ORDER[position] || 99`. */
  function PositionRank(position: string): nat {
    if position in PositionOrder then PositionOrder[position] else 99
  }

  /** The sort key of a detail. */
  function RankKey(d: Detail): real {
    PositionRank(d.position) as real
  }

  /**
   * The dialog's list: nothing without a team or a matchup; otherwise the
   * details of the matchup's starters sorted by position rank.
   */
  function Lineup(team: Option<TeamRow>, matchup: Option<Matchup>, players: Catalog, byes: set<string>,
                  leaguePositions: Option<seq<string>>): Option<seq<Detail>>
  {
    if team.None? || matchup.None? then None
    else
      var starters := if matchup.value.starters.Some? then matchup.value.starters.value else [];
      Some(Sort(Details(starters, players, byes, PositionsFor(leaguePositions)), RankKey))
  }

  /**
   * The sorted list: absent exactly when the team or the matchup is; otherwise
   * a permutation of the per-slot details, ordered by position rank, with
   * slots of equal rank kept in slot order.
   */
  lemma LineupSorted(team: Option<TeamRow>, matchup: Option<Matchup>, players: Catalog, byes: set<string>,
                     leaguePositions: Option<seq<string>>, rank: real)
    ensures Lineup(team, matchup, players, byes, leaguePositions).None? <==> team.None? || matchup.None?
    ensures var r := Lineup(team, matchup, players, byes, leaguePositions);
            r.Some? ==>
              var d := Details(if matchup.value.starters.Some? then matchup.value.starters.value else [],
                               players, byes, PositionsFor(leaguePositions));
              multiset(r.value) == multiset(d) && SortedBy(r.value, RankKey) &&
              WithKey(r.value, RankKey, rank) == WithKey(d, RankKey, rank)
  {
    if team.Some? && matchup.Some? {
      var d := Details(if matchup.value.starters.Some? then matchup.value.starters.value else [],
                       players, byes, PositionsFor(leaguePositions));
      SortStable(d, RankKey, rank);
    }
  }

  /**
   * What the dialog shows for one slot, case by case and in the order the
   * dialog tests them: an empty slot, a D/ST id, an id missing from the
   * catalog, a player whose team is on bye, a PUP player, anyone else.
   */
  lemma SlotDetailCases(pid: string, i: nat, players: Catalog, byes: set<string>, positions: seq<string>)
    ensures var d := SlotDetail(pid, i, players, byes, positions);
            EmptySlot(pid) ==>
              d.name == "EMPTY" && d.position == SlotPosition(i, positions) && d.status == INCOMPLETE &&
              d.reason == Some("Empty Slot") && d.isEmpty && !d.isDefense
    ensures var d := SlotDetail(pid, i, players, byes, positions);
            !EmptySlot(pid) && IsDstStarterId(pid) ==>
              d.pid == pid && d.name == pid + " D / ST" && d.position == "DEF" && d.isDefense && !d.isEmpty &&
              (pid in byes ==> d.status == INCOMPLETE && d.reason == Some("BYE")) &&
              (pid !in byes ==> d.status == OK && d.reason == Some("Active"))
    ensures var d := SlotDetail(pid, i, players, byes, positions);
            !EmptySlot(pid) && !IsDstStarterId(pid) && pid !in players ==>
              d.pid == pid && d.name == "EMPTY" && d.position == SlotPosition(i, positions) &&
              d.status == INCOMPLETE && d.reason == Some("Empty Slot") && d.isEmpty && !d.isDefense
    ensures var d := SlotDetail(pid, i, players, byes, positions);
            !EmptySlot(pid) && !IsDstStarterId(pid) && pid in players ==>
              var p := players[pid];
              d.pid == pid && !d.isEmpty && !d.isDefense &&
              d.name == Trim(p.firstName + " " + p.lastName + " ") &&
              (p.position != "" ==> d.position == p.position) &&
              (p.position == "" ==> d.position == SlotPosition(i, positions)) &&
              (p.team != "" && p.team in byes ==> d.status == INCOMPLETE && d.reason == Some("BYE")) &&
              (!(p.team != "" && p.team in byes) && IsPup(p) ==> d.status == INCOMPLETE && d.reason == Some("PUP")) &&
              (!(p.team != "" && p.team in byes) && !IsPup(p) ==>
                 d.status == ClassifyInjury(Some(p)) &&
                 (p.injuryStatus != "" ==> d.reason == Some(p.injuryStatus)) &&
                 (p.injuryStatus == "" && p.status != "" ==> d.reason == Some(p.status)) &&
                 (p.injuryStatus == "" && p.status == "" ==>
                    d.reason == if d.status == INCOMPLETE then Some("Out") else None))
  {
  }

  /**
   * A slot the checkers would stop at is INCOMPLETE in the dialog, a slot they
   * would warn about is POTENTIAL, and a slot they pass over is OK, except an
   * id missing from the catalog, which the dialog shows as an empty slot.
   */
  lemma SlotAgreesWithVerdict(pid: string, i: nat, players: Catalog, byes: set<string>, positions: seq<string>)
    requires !EmptySlot(pid)
    ensures StarterVerdict(pid, players, byes).Stop? ==> SlotDetail(pid, i, players, byes, positions).status == INCOMPLETE
    ensures StarterVerdict(pid, players, byes).Warn? ==> SlotDetail(pid, i, players, byes, positions).status == POTENTIAL
    ensures StarterVerdict(pid, players, byes).Skip? ==>
              SlotDetail(pid, i, players, byes, positions).status ==
                (if IsDstStarterId(pid) || pid in players then OK else INCOMPLETE)
  {
  }

  /**
   * The dialog never looks better than the checker's verdict on the same
   * starters: an INCOMPLETE lineup has an INCOMPLETE slot, a POTENTIAL one a
   * POTENTIAL slot, and a lineup whose slots are all OK is OK.
   */
  lemma DialogMatchesChecker(raw: seq<string>, players: Catalog, byes: set<string>, positions: seq<string>)
    ensures var d := Details(raw, players, byes, positions);
            TeamOutcome(raw, players, byes).status == INCOMPLETE ==>
              exists i :: 0 <= i < |d| && d[i].status == INCOMPLETE
    ensures var d := Details(raw, players, byes, positions);
            TeamOutcome(raw, players, byes).status == POTENTIAL ==>
              exists i :: 0 <= i < |d| && d[i].status == POTENTIAL
    ensures var d := Details(raw, players, byes, positions);
            (forall i :: 0 <= i < |d| ==> d[i].status == OK) ==> TeamOutcome(raw, players, byes).status == OK
  {
    var d := Details(raw, players, byes, positions);
    OutcomeStatus(raw, players, byes);
    var o := TeamOutcome(raw, players, byes);
    if o.status == INCOMPLETE {
      if HasEmptySlot(raw) {
        var i :| 0 <= i < |raw| && EmptySlot(raw[i]);
        assert d[i].status == INCOMPLETE;
      } else {
        var i :| 0 <= i < |raw| && StarterVerdict(raw[i], players, byes).Stop?;
        SlotAgreesWithVerdict(raw[i], i, players, byes, positions);
        assert d[i].status == INCOMPLETE;
      }
    } else if o.status == POTENTIAL {
      var i :| 0 <= i < |raw| && StarterVerdict(raw[i], players, byes).Warn?;
      SlotAgreesWithVerdict(raw[i], i, players, byes, positions);
      assert d[i].status == POTENTIAL;
    }
  }

  /** A starter missing from the catalog: passed over by the checkers, an empty slot in the dialog. */
  lemma MissingPlayerDisagrees(byes: set<string>)
    ensures TeamOutcome(["123"], map[], byes) == Outcome(OK, [])
    ensures Details(["123"], map[], byes, DefaultPositions)[0] ==
              Detail("123", "EMPTY", "QB", INCOMPLETE, Some("Empty Slot"), true, false)
  {
    assert !EmptySlot("123");
    assert !HasEmptySlot(["123"]);
    assert !IsDstStarterId("123") by {
      NumericIdIsNotDst("123", 0);
    }
    assert Verdicts(["123"], map[], byes) == [Skip];
    assert [Skip][1..] == [];
    assert Scan([Skip]) == Outcome(OK, []);
  }
}
