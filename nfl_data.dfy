/**
 * Injury, defense/special-teams and naming helpers, and the 2025 NFL tables
 * the lineup views consult.
 */
module NflData {
  import opened Wrappers
  import opened Text
  import opened Entities

  /** The three lineup-health buckets. */
  datatype Status = OK | POTENTIAL | INCOMPLETE

  /** Teams on bye per regular-season week of 2025; a week absent from the map has no table entry. */
  const ByeMap2025: map<int, seq<string>> := map[
    5 := ["PIT", "CHI", "GB", "ATL"],
    6 := ["HOU", "MIN"],
    7 := ["BAL", "BUF"],
    8 := ["JAX", "LV", "DET", "ARI", "SEA", "LAR"],
    9 := ["PHI", "CLE", "NYJ", "TB"],
    10 := ["KC", "CIN", "TEN", "DAL"],
    11 := ["IND", "NO"],
    12 := ["MIA", "DEN", "LAC", "WAS"],
    13 := [],
    14 := ["NYG", "NE", "CAR", "SF"]
  ]

  /** The 32 franchise abbreviations, in the dashboard's canonical spelling. */
  const AllNflTeams: seq<string> := [
    "ARI", "ATL", "BAL", "BUF", "CAR", "CHI", "CIN", "CLE", "DAL", "DEN",
    "DET", "GB", "HOU", "IND", "JAX", "KC", "LAC", "LAR", "LV", "MIA",
    "MIN", "NE", "NO", "NYG", "NYJ", "PHI", "PIT", "SEA", "SF", "TB",
    "TEN", "WAS"
  ]

  /** Display rank of each lineup position. */
  const PositionOrder: map<string, nat> := map[
    "QB" := 1, "RB" := 2, "WR" := 3, "TE" := 4, "FLEX" := 5, "K" := 6, "DEF" := 7
  ]

  const AvatarCdn: string := "https://sleepercdn.com/avatars/"

  /**
   * `avatarUrl(avatarId, size)`: no URL for a falsy id; otherwise the CDN
   * prefix, the "thumbs/" directory exactly when the thumbnail size is asked
   * for, and the id itself.
   */
  function AvatarUrl(avatarId: string, size: string): (r: Option<string>)
    ensures r.None? <==> avatarId == ""
    ensures r.Some? ==> StartsWith(r.value, AvatarCdn)
    ensures r.Some? ==> |r.value| >= |avatarId| && r.value[|r.value| - |avatarId|..] == avatarId
    ensures r.Some? ==> |r.value| == |AvatarCdn| + |avatarId| + (if size == "thumbs" then 7 else 0)
    ensures r.Some? && size == "thumbs" ==> r.value[|AvatarCdn|..|AvatarCdn| + 7] == "thumbs/"
  {
    if avatarId == "" then None
    else Some(AvatarCdn + (if size == "thumbs" then "thumbs/" else "") + avatarId)
  }

  /**
   * `displayTeamName(user)`: the first truthy of the custom team name, the
   * display name and the user name, else "Team " followed by the user id
   * ("Team undefined" when there is no user at all). Never empty.
   */
  function DisplayTeamName(user: Option<User>): (r: string)
    ensures r != ""
    ensures user.Some? && user.value.teamName != "" ==> r == user.value.teamName
    ensures user.Some? && user.value.teamName == "" && user.value.displayName != "" ==> r == user.value.displayName
    ensures user.Some? && user.value.teamName == "" && user.value.displayName == "" && user.value.username != "" ==>
              r == user.value.username
    ensures user.Some? && user.value.teamName == user.value.displayName == user.value.username == "" ==>
              r == "Team " + user.value.userId
    ensures user.None? ==> r == "Team undefined"
  {
    match user
    case None => "Team undefined"
    case Some(u) => Or(u.teamName, Or(u.displayName, Or(u.username, "Team " + u.userId)))
  }

  /** Every character of `s` is an upper-case ASCII letter. */
  function AllUpper(s: string): (b: bool)
    ensures b <==> forall i :: 0 <= i < |s| ==> IsUpper(s[i])
  {
    s == [] || (IsUpper(s[0]) && AllUpper(s[1..]))
  }

  /**
   * `isDSTStarterId(pid)`, the regular expression `^[A-Z]{2,4}$` decided
   * character by character: two to four upper-case letters and nothing else.
   */
  function IsDstStarterId(pid: string): (b: bool)
    ensures b <==> 2 <= |pid| <= 4 && forall i :: 0 <= i < |pid| ==> IsUpper(pid[i])
  {
    2 <= |pid| <= 4 && AllUpper(pid)
  }

  /** Numeric player ids are never taken for a defense. */
  lemma NumericIdIsNotDst(pid: string, i: nat)
    requires i < |pid| && IsDigit(pid[i])
    ensures !IsDstStarterId(pid)
  {
  }

  const InjuryOut: seq<string> := ["out", "ir", "suspended", "pup"]
  const StatusOut: seq<string> := ["ir", "suspension", "pup"]
  const InjuryDoubt: seq<string> := ["questionable", "doubtful"]

  /**
   * `classifyInjury(player)`: INCOMPLETE when the lower-cased injury status is
   * out, ir, suspended or pup, or the lower-cased roster status is ir,
   * suspension or pup; otherwise POTENTIAL when the injury status is
   * questionable or doubtful; otherwise OK. A missing player has empty fields.
   */
  function ClassifyInjury(player: Option<Player>): Status {
    var inj := ToLower(if player.Some? then player.value.injuryStatus else "");
    var status := ToLower(if player.Some? then player.value.status else "");
    if inj in InjuryOut || status in StatusOut then INCOMPLETE
    else if inj in InjuryDoubt then POTENTIAL
    else OK
  }

  /** Two players whose status texts agree up to letter case are classified alike. */
  lemma ClassifyIgnoresCase(p: Player, q: Player)
    requires ToLower(p.injuryStatus) == ToLower(q.injuryStatus)
    requires ToLower(p.status) == ToLower(q.status)
    ensures ClassifyInjury(Some(p)) == ClassifyInjury(Some(q))
  {
  }

  /** Absence of information is healthy: a missing player, or one with blank status texts, is OK. */
  lemma BlankIsOk(player: Option<Player>)
    requires player.Some? ==> player.value.injuryStatus == "" && player.value.status == ""
    ensures ClassifyInjury(player) == OK
  {
    ToLowerEmpty("");
  }

  /** The roster status alone never makes a player POTENTIAL. */
  lemma StatusAloneNeverPotential(p: Player)
    requires p.injuryStatus == ""
    ensures ClassifyInjury(Some(p)) != POTENTIAL
  {
    ToLowerEmpty("");
  }

  /** POTENTIAL needs a questionable or doubtful injury status and no disqualifying text. */
  lemma PotentialNeedsDoubt(p: Player)
    requires ClassifyInjury(Some(p)) == POTENTIAL
    ensures ToLower(p.injuryStatus) in InjuryDoubt
    ensures ToLower(p.status) !in StatusOut
  {
  }

  /**
   * The three buckets for every player, present or not: a missing player or field reads as "",
   * and the match is case-insensitive against the lists written out.
   */
  lemma ClassifyMeaning(player: Option<Player>)
    ensures var inj := ToLower(if player.Some? then player.value.injuryStatus else "");
            var st := ToLower(if player.Some? then player.value.status else "");
            var out := inj == "out" || inj == "ir" || inj == "suspended" || inj == "pup" ||
                       st == "ir" || st == "suspension" || st == "pup";
            (ClassifyInjury(player) == INCOMPLETE <==> out) &&
            (ClassifyInjury(player) == POTENTIAL <==> !out && (inj == "questionable" || inj == "doubtful")) &&
            (ClassifyInjury(player) == OK <==> !out && inj != "questionable" && inj != "doubtful")
  {
  }

  /** The texts the API actually sends, in their capitalised spelling, land in the intended buckets. */
  lemma ApiSpellings(p: Player)
    ensures p.injuryStatus in ["Out", "IR", "Suspended", "PUP"] ==> ClassifyInjury(Some(p)) == INCOMPLETE
    ensures p.status in ["IR", "Suspension", "PUP"] ==> ClassifyInjury(Some(p)) == INCOMPLETE
    ensures p.injuryStatus in ["Questionable", "Doubtful"] && ToLower(p.status) !in StatusOut ==>
              ClassifyInjury(Some(p)) == POTENTIAL
  {
    assert ToLower("Out") == "out";
    assert ToLower("IR") == "ir";
    assert ToLower("Suspended") == "suspended";
    assert ToLower("PUP") == "pup";
    assert ToLower("Suspension") == "suspension";
    assert ToLower("Questionable") == "questionable";
    assert ToLower("Doubtful") == "doubtful";
  }

  lemma TeamsAreDstIdsFirstHalf()
    ensures forall i :: 0 <= i < 16 ==> IsDstStarterId(AllNflTeams[i])
  {
  }

  lemma TeamsAreDstIdsSecondHalf()
    ensures forall i :: 16 <= i < 32 ==> IsDstStarterId(AllNflTeams[i])
  {
  }

  /** Every franchise abbreviation has the shape of a defense starter id. */
  lemma TeamsAreDstIds()
    ensures forall t :: t in AllNflTeams ==> IsDstStarterId(t)
  {
    TeamsAreDstIdsFirstHalf();
    TeamsAreDstIdsSecondHalf();
  }

  /** The entry at `i` differs from every later one. */
  ghost predicate DistinctAfter(s: seq<string>, i: int)
    requires 0 <= i < |s|
  {
    forall j :: i < j < |s| ==> s[i] != s[j]
  }

  lemma TeamsDistinct0() ensures forall i :: 0 <= i < 2 ==> DistinctAfter(AllNflTeams, i) { }
  lemma TeamsDistinct1() ensures forall i :: 2 <= i < 4 ==> DistinctAfter(AllNflTeams, i) { }
  lemma TeamsDistinct2() ensures forall i :: 4 <= i < 8 ==> DistinctAfter(AllNflTeams, i) { }
  lemma TeamsDistinct3() ensures forall i :: 8 <= i < 16 ==> DistinctAfter(AllNflTeams, i) { }
  lemma TeamsDistinct4() ensures forall i :: 16 <= i < 32 ==> DistinctAfter(AllNflTeams, i) { }

  /** The franchise list has 32 distinct entries. */
  lemma AllTeamsDistinct()
    ensures |AllNflTeams| == 32
    ensures forall i, j :: 0 <= i < j < |AllNflTeams| ==> AllNflTeams[i] != AllNflTeams[j]
  {
    TeamsDistinct0();
    TeamsDistinct1();
    TeamsDistinct2();
    TeamsDistinct3();
    TeamsDistinct4();
    forall i, j | 0 <= i < j < |AllNflTeams|
      ensures AllNflTeams[i] != AllNflTeams[j]
    {
      assert DistinctAfter(AllNflTeams, i);
    }
  }

  /** Week 13 is in the 2025 bye table with no team on bye. */
  lemma ByeWeek13Empty()
    ensures 13 in ByeMap2025 && ByeMap2025[13] == []
  {
  }

  /** The 2025 bye table lists only franchises. */
  lemma ByeTableListsTeams()
    ensures forall w, t :: w in ByeMap2025 && t in ByeMap2025[w] ==> t in AllNflTeams
  {
  }

  /** The week a franchise is on bye in the 2025 table, or 0 when it is not listed. */
  function ByeWeekOf(t: string): int {
    if t in ByeMap2025[5] then 5
    else if t in ByeMap2025[6] then 6
    else if t in ByeMap2025[7] then 7
    else if t in ByeMap2025[8] then 8
    else if t in ByeMap2025[9] then 9
    else if t in ByeMap2025[10] then 10
    else if t in ByeMap2025[11] then 11
    else if t in ByeMap2025[12] then 12
    else if t in ByeMap2025[14] then 14
    else 0
  }

  lemma ByeWeekOf5to6(w: int, t: string)
    requires w in ByeMap2025 && 5 <= w <= 6 && t in ByeMap2025[w]
    ensures ByeWeekOf(t) == w
  {
    assert w in {5, 6};
  }

  lemma ByeWeekOf7to8(w: int, t: string)
    requires w in ByeMap2025 && 7 <= w <= 8 && t in ByeMap2025[w]
    ensures ByeWeekOf(t) == w
  {
    assert w in {7, 8};
  }

  lemma ByeWeekOf9to10(w: int, t: string)
    requires w in ByeMap2025 && 9 <= w <= 10 && t in ByeMap2025[w]
    ensures ByeWeekOf(t) == w
  {
    assert w in {9, 10};
  }

  lemma ByeWeekOf11to13(w: int, t: string)
    requires w in ByeMap2025 && 11 <= w <= 13 && t in ByeMap2025[w]
    ensures ByeWeekOf(t) == w
  {
    assert w in {11, 12, 13};
  }

  lemma ByeWeekOf14(w: int, t: string)
    requires w in ByeMap2025 && w == 14 && t in ByeMap2025[w]
    ensures ByeWeekOf(t) == w
  {
  }

  /** `ByeWeekOf` finds the week a franchise is listed under. */
  lemma ByeWeekOfCorrect(w: int, t: string)
    requires w in ByeMap2025 && t in ByeMap2025[w]
    ensures ByeWeekOf(t) == w
  {
    if w <= 6 {
      ByeWeekOf5to6(w, t);
    } else if w <= 8 {
      ByeWeekOf7to8(w, t);
    } else if w <= 10 {
      ByeWeekOf9to10(w, t);
    } else if w <= 13 {
      ByeWeekOf11to13(w, t);
    } else {
      ByeWeekOf14(w, t);
    }
  }

  /** No franchise is on bye twice in the 2025 table. */
  lemma ByeTableDisjoint()
    ensures forall w1, w2, t :: w1 in ByeMap2025 && w2 in ByeMap2025 && t in ByeMap2025[w1] && t in ByeMap2025[w2] ==>
              w1 == w2
  {
    forall w1, w2, t | w1 in ByeMap2025 && w2 in ByeMap2025 && t in ByeMap2025[w1] && t in ByeMap2025[w2]
      ensures w1 == w2
    {
      ByeWeekOfCorrect(w1, t);
      ByeWeekOfCorrect(w2, t);
    }
  }

  /** Every franchise has a bye week in the 2025 table. */
  lemma ByeTableCoversEveryTeam()
    ensures forall t :: t in AllNflTeams ==> exists w :: w in ByeMap2025 && t in ByeMap2025[w]
  {
    forall t | t in AllNflTeams ensures exists w :: w in ByeMap2025 && t in ByeMap2025[w] {
      assert t in ByeMap2025[5] || t in ByeMap2025[6] || t in ByeMap2025[7] || t in ByeMap2025[8] ||
             t in ByeMap2025[9] || t in ByeMap2025[10] || t in ByeMap2025[11] || t in ByeMap2025[12] ||
             t in ByeMap2025[14];
    }
  }
}
