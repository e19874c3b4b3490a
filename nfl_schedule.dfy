/**
 * The bye-week lookup: the franchises not playing in a week are those of the
 * canonical franchise list that no competitor of that week's scoreboard
 * represents. The scoreboard fetch is a parameter; any failure, including a
 * scoreboard event without a competition, gives the empty list.
 */
module NflSchedule {
  import opened Wrappers
  import opened NflData

  /** A scoreboard game: `competitions[k].competitors[c].team.abbreviation`. */
  datatype Competition = Competition(competitors: seq<string>)
  datatype Event = Event(competitions: seq<Competition>)

  /**
   * The scoreboard response: the request failed (a network error, a response
   * that is not ok, or a body that is not JSON), or it gave `data.events`,
   * possibly absent.
   */
  datatype Scoreboard = Failed | Ok(events: Option<seq<Event>>)

  /** Every event has a first competition (`event.competitions[0]` does not throw). */
  predicate Scheduled(events: seq<Event>) {
    forall i :: 0 <= i < |events| ==> |events[i].competitions| > 0
  }

  /** The teams of the first competition of each event. */
  function Playing(events: seq<Event>): set<string>
    requires Scheduled(events)
  {
    set i, c | 0 <= i < |events| && 0 <= c < |events[i].competitions[0].competitors| :: events[i].competitions[0].competitors[c]
  }

  /** `teams.filter(team => !playing.has(team))`. */
  function Unscheduled(teams: seq<string>, playing: set<string>): (r: seq<string>)
    ensures |r| <= |teams|
  {
    if teams == [] then []
    else
      var last := teams[|teams| - 1];
      Unscheduled(teams[..|teams| - 1], playing) + (if last !in playing then [last] else [])
  }

  /** The ESPN-to-Sleeper spelling correction. */
  function Normalize(team: string): string {
    if team == "WSH" then "WAS" else team
  }

  function NormalizeAll(teams: seq<string>): (r: seq<string>)
    ensures |r| == |teams|
    ensures forall i :: 0 <= i < |r| ==> r[i] == Normalize(teams[i])
  {
    seq(|teams|, i requires 0 <= i < |teams| => Normalize(teams[i]))
  }

  /** `getTeamsOnBye`: the franchises not playing, or nothing on any failure. */
  function TeamsOnBye(response: Scoreboard): seq<string> {
    if response.Failed? then []
    else
      var events := response.events.GetOr([]);
      if !Scheduled(events) then []
      else NormalizeAll(Unscheduled(AllNflTeams, Playing(events)))
  }

  // ---------------------------------------------------------------------
  // Properties

  /** The filter keeps exactly the teams that are not playing. */
  lemma {:induction false} UnscheduledMembers(teams: seq<string>, playing: set<string>, t: string)
    ensures t in Unscheduled(teams, playing) <==> t in teams && t !in playing
  {
    if teams != [] {
      var init := teams[..|teams| - 1];
      UnscheduledMembers(init, playing, t);
      assert teams == init + [teams[|teams| - 1]];
    }
  }

  /** The filter keeps the list's order: filtering a concatenation filters each part. */
  lemma {:induction false} UnscheduledAppend(a: seq<string>, b: seq<string>, playing: set<string>)
    ensures Unscheduled(a + b, playing) == Unscheduled(a, playing) + Unscheduled(b, playing)
    decreases |b|
  {
    if b == [] {
      assert a + b == a;
    } else {
      var init := b[..|b| - 1];
      assert a + b == (a + init) + [b[|b| - 1]];
      assert (a + b)[..|a + b| - 1] == a + init;
      UnscheduledAppend(a, init, playing);
    }
  }

  /** The filter of a duplicate-free list is duplicate-free. */
  lemma {:induction false} UnscheduledDistinct(teams: seq<string>, playing: set<string>)
    requires forall i, j :: 0 <= i < j < |teams| ==> teams[i] != teams[j]
    ensures var r := Unscheduled(teams, playing);
            forall i, j :: 0 <= i < j < |r| ==> r[i] != r[j]
  {
    if teams != [] {
      var init, last := teams[..|teams| - 1], teams[|teams| - 1];
      UnscheduledDistinct(init, playing);
      UnscheduledMembers(init, playing, last);
      assert last !in init;
    }
  }

  /** "WSH" is not a franchise spelling, so the correction never applies to the filtered list. */
  lemma WshIsNotATeam()
    ensures "WSH" !in AllNflTeams
  {
  }

  lemma NormalizeNeverFires(teams: seq<string>)
    requires forall t :: t in teams ==> t in AllNflTeams
    ensures NormalizeAll(teams) == teams
  {
    WshIsNotATeam();
  }

  /**
   * A successful response gives the franchises that no competitor of any
   * event's first competition represents, each once; a failure, or an event
   * without a competition, gives none.
   */
  lemma ByeMeaning(response: Scoreboard)
    ensures response.Failed? ==> TeamsOnBye(response) == []
    ensures response.Ok? && !Scheduled(response.events.GetOr([])) ==> TeamsOnBye(response) == []
    ensures response.Ok? && Scheduled(response.events.GetOr([])) ==>
            var events := response.events.GetOr([]);
            var byes := TeamsOnBye(response);
            byes == Unscheduled(AllNflTeams, Playing(events)) &&
            (forall t :: t in byes <==> t in AllNflTeams && t !in Playing(events)) &&
            (forall i, j :: 0 <= i < j < |byes| ==> byes[i] != byes[j])
  {
    if response.Ok? && Scheduled(response.events.GetOr([])) {
      var playing := Playing(response.events.GetOr([]));
      forall t ensures t in Unscheduled(AllNflTeams, playing) <==> t in AllNflTeams && t !in playing {
        UnscheduledMembers(AllNflTeams, playing, t);
      }
      NormalizeNeverFires(Unscheduled(AllNflTeams, playing));
      AllTeamsDistinct();
      UnscheduledDistinct(AllNflTeams, playing);
    }
  }

  /** Without events (absent or empty), every franchise is on bye. */
  lemma NoGamesAllOnBye(response: Scoreboard)
    requires response.Ok? && (response.events.None? || response.events.value == [])
    ensures TeamsOnBye(response) == AllNflTeams
  {
    var events := response.events.GetOr([]);
    assert events == [];
    assert Playing(events) == {};
    NoneFiltered(AllNflTeams);
    NormalizeNeverFires(AllNflTeams);
  }

  lemma {:induction false} NoneFiltered(teams: seq<string>)
    ensures Unscheduled(teams, {}) == teams
  {
    if teams != [] {
      NoneFiltered(teams[..|teams| - 1]);
    }
  }

  // ---------------------------------------------------------------------
  // The spelling correction applied to the wrong list

  /** A week in which Washington plays, under the spelling the scoreboard uses. */
  const WashingtonPlays: Scoreboard := Ok(Some([Event([Competition(["WSH", "DAL"])])]))

  /** As written, Washington is reported on bye in a week it plays. */
  lemma WashingtonReportedOnBye()
    ensures "WAS" in TeamsOnBye(WashingtonPlays)
  {
    var events := WashingtonPlays.events.value;
    assert Scheduled(events);
    forall i, c | 0 <= i < |events| && 0 <= c < |events[i].competitions[0].competitors|
      ensures events[i].competitions[0].competitors[c] != "WAS"
    {
      assert events[i].competitions[0].competitors == ["WSH", "DAL"];
    }
    assert AllNflTeams[31] == "WAS";
    ByeMeaning(WashingtonPlays);
  }

  /** The teams of the first competition of each event, in the franchise list's spelling. */
  function PlayingNormalized(events: seq<Event>): set<string>
    requires Scheduled(events)
  {
    set i, c | 0 <= i < |events| && 0 <= c < |events[i].competitions[0].competitors| ::
      Normalize(events[i].competitions[0].competitors[c])
  }

  /** The intended lookup: the spelling correction applied to the scoreboard's teams before the comparison. */
  function TeamsOnByeCorrected(response: Scoreboard): seq<string> {
    if response.Failed? then []
    else
      var events := response.events.GetOr([]);
      if !Scheduled(events) then []
      else Unscheduled(AllNflTeams, PlayingNormalized(events))
  }

  /**
   * With the correction, a franchise is on bye exactly when no competitor
   * represents it under either spelling; failures still give nothing.
   */
  lemma CorrectedByeMeaning(response: Scoreboard, t: string)
    ensures response.Failed? ==> TeamsOnByeCorrected(response) == []
    ensures response.Ok? && Scheduled(response.events.GetOr([])) ==>
            var events := response.events.GetOr([]);
            (t in TeamsOnByeCorrected(response) <==>
             t in AllNflTeams &&
             forall i, c :: 0 <= i < |events| && 0 <= c < |events[i].competitions[0].competitors| ==>
               Normalize(events[i].competitions[0].competitors[c]) != t)
  {
    if response.Ok? && Scheduled(response.events.GetOr([])) {
      UnscheduledMembers(AllNflTeams, PlayingNormalized(response.events.GetOr([])), t);
    }
  }

  /** Washington playing under the scoreboard's spelling is no longer reported on bye. */
  lemma WashingtonNotOnBye()
    ensures "WAS" !in TeamsOnByeCorrected(WashingtonPlays)
  {
    var events := WashingtonPlays.events.value;
    assert Scheduled(events);
    assert events[0].competitions[0].competitors[0] == "WSH";
    assert "WAS" in PlayingNormalized(events);
    UnscheduledMembers(AllNflTeams, PlayingNormalized(events), "WAS");
  }

  /** Where no competitor is spelled "WSH", the correction changes nothing. */
  lemma CorrectionAgrees(response: Scoreboard)
    requires response.Ok? && Scheduled(response.events.GetOr([]))
    requires var events := response.events.GetOr([]);
             forall i, c :: 0 <= i < |events| && 0 <= c < |events[i].competitions[0].competitors| ==>
               events[i].competitions[0].competitors[c] != "WSH"
    ensures TeamsOnByeCorrected(response) == TeamsOnBye(response)
  {
    var events := response.events.GetOr([]);
    assert PlayingNormalized(events) == Playing(events);
    forall t | t in Unscheduled(AllNflTeams, Playing(events)) ensures t in AllNflTeams {
      UnscheduledMembers(AllNflTeams, Playing(events), t);
    }
    NormalizeNeverFires(Unscheduled(AllNflTeams, Playing(events)));
  }

  // ---------------------------------------------------------------------
  // The computation

  /** The two `forEach` loops that fill `playingTeams`; `ok` is false where `competitions[0]` would throw. */
  method CollectPlaying(events: seq<Event>) returns (ok: bool, playing: set<string>)
    ensures ok <==> Scheduled(events)
    ensures ok ==> playing == Playing(events)
  {
    playing := {};
    for i := 0 to |events|
      invariant Scheduled(events[..i])
      invariant playing == Playing(events[..i])
    {
      if |events[i].competitions| == 0 {
        assert !Scheduled(events);
        return false, playing;
      }
      var competitors := events[i].competitions[0].competitors;
      ghost var before := playing;
      for c := 0 to |competitors|
        invariant playing == before + set k | 0 <= k < c :: competitors[k]
      {
        playing := playing + {competitors[c]};
      }
      assert events[..i + 1][..i] == events[..i];
      assert playing == Playing(events[..i + 1]) by {
        forall t | t in Playing(events[..i + 1]) ensures t in playing {
          var j, c :| 0 <= j < i + 1 && 0 <= c < |events[j].competitions[0].competitors| &&
                      t == events[j].competitions[0].competitors[c];
          if j < i {
            assert t in Playing(events[..i]);
          }
        }
      }
    }
    assert events[..|events|] == events;
    ok := true;
  }

  /** `getTeamsOnBye` once the scoreboard is in hand. */
  method GetTeamsOnBye(response: Scoreboard) returns (byes: seq<string>)
    ensures byes == TeamsOnBye(response)
  {
    if response.Failed? {
      return [];
    }
    var events := response.events.GetOr([]);
    var ok, playing := CollectPlaying(events);
    if !ok {
      return [];
    }
    byes := NormalizeAll(Unscheduled(AllNflTeams, playing));
  }
}
