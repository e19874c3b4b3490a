# Sleeper analytics dashboard — a verified model of its core

The dashboard reads a Sleeper fantasy-football league and derives several views
from it:

- the **lineup checker** (`useLineupStatus` and its older copy in `LineupChecker`), which sorts each
  team's starters into OK, POTENTIAL or INCOMPLETE, and the **lineup dialog**
  (`TeamLineupModal`);
- the per-player season statistics (`usePlayerStats`);
- the **true standings** (all-play records, win percentage, luck);
- the **positional radar**;
- the **trade finder** (surplus and deficit of top-ranked receivers and backs, and the trades that match them);
- the **draft analysis** (steals and busts);
- the **rivalry matrix** (head-to-head records against each past opponent);
- the **league history walk** (`fetchLeagueHistory`);
- the **bye-week lookup** from the public scoreboard (`getTeamsOnBye`);
- the navigation bar's reading of the current path.

The model has one module per source file:

- `LineupRules` holds the per-lineup scan. Both copies of the checker share it, since their loops are identical.
- Helper modules model the JavaScript behaviour the core relies on:
  - `Text`: lower-casing, `trim`, `includes`, number rendering;
  - `Sorting`: the stable `Array.prototype.sort`;
  - `JsObject`: insertion-ordered objects keyed by non-index strings;
  - `Wrappers`: `Option`, `find`, and `filter(Boolean)` over mapped results;
  - `Entities`: the API records, the `Map` indexes, and the flattening of a season into starter slots.

Points are exact reals. A text field that the code reads only through truthiness
or `||` is a `string`, with `""` standing for null, undefined and the empty string.
Fields that the code compares or that may be null in a way that matters are `Option`s:
- a matchup's `starters` list, where an empty array is truthy;
- `owner_id`;
- `matchup_id`;
- the nullable inputs of each memo.

Network results are parameters:
- a season's matchups is a sequence indexed by week;
- the league fetches are a map from league id to `Fetch`;
- the scoreboard response is a `Scoreboard` value;
- the draft picks and the week's bye set are values.

Where the source updates state step by step (the `for`/`forEach` loops of every memo), the model is a method whose
loop is proved to compute a specification function. The source's promises are lemmas
about that function.

## Model

| member | source | states |
|---|---|---|
| NflData.AvatarUrl | src/utils/nflData.js:65-68 | no URL for an empty avatar id; otherwise the CDN prefix, "thumbs/" exactly for the thumbs size, then the id |
| NflData.DisplayTeamName | src/utils/nflData.js:73-77 | the first non-empty of team name, display name, username, else "Team " + user id ("Team undefined" without a user); never empty |
| NflData.IsDstStarterId | src/utils/nflData.js:82-84 | holds iff the id has 2 to 4 characters, all upper-case ASCII letters |
| NflData.NumericIdIsNotDst | src/utils/nflData.js:82-84 | an id containing a digit is never taken for a defense |
| NflData.ClassifyMeaning | src/utils/nflData.js:89-100 | for every player, present or not (a missing player or field reads as ""): INCOMPLETE iff the lower-cased injury status is out, ir, suspended or pup or the lower-cased roster status is ir, suspension or pup; POTENTIAL iff not INCOMPLETE and the lower-cased injury status is questionable or doubtful; OK iff neither |
| NflData.ClassifyIgnoresCase | src/utils/nflData.js:89-100 | classification depends on the status texts only up to letter case |
| NflData.BlankIsOk | src/utils/nflData.js:89-100 | a missing player, or one with blank status texts, is OK |
| NflData.StatusAloneNeverPotential | src/utils/nflData.js:97 | without an injury status a player is never POTENTIAL |
| NflData.PotentialNeedsDoubt | src/utils/nflData.js:94-97 | POTENTIAL implies a questionable/doubtful injury status and no disqualifying roster status |
| NflData.TeamsAreDstIds | src/utils/nflData.js:18-23 | every franchise abbreviation has the shape of a defense starter id |
| NflData.AllTeamsDistinct | src/utils/nflData.js:18-23 | the franchise list has 32 distinct entries |
| NflData.ByeWeek13Empty | src/utils/nflData.js:4-15 | week 13 is in the bye table with no team |
| NflData.ByeTableListsTeams | src/utils/nflData.js:4-23 | the bye table lists only franchises |
| NflData.ByeWeekOfCorrect | src/utils/nflData.js:4-15 | the bye-week lookup returns the week a franchise is listed under |
| NflData.ByeTableDisjoint | src/utils/nflData.js:4-15 | no franchise is on bye in two weeks |
| NflData.ByeTableCoversEveryTeam | src/utils/nflData.js:4-23 | every franchise has a bye week |
| Text.ToLower | src/utils/nflData.js:90-91 | lower-casing keeps the length and lowers each ASCII capital, leaving every other character as it is |
| Text.Trim | src/features/league/hooks/useLineupStatus.js:71 | the result is the infix of the input left after cutting only white space at both ends, and neither starts nor ends with white space (ECMAScript's WhiteSpace and LineTerminator characters) |
| Text.NatToString | src/features/analytics/components/TrueStandings.jsx:78-79 | the decimal rendering is a non-empty string of digits that denotes the number, without a leading zero unless the number is 0 |
| Text.Includes | src/components/layout/Navbar.jsx:14 | holds iff the pattern occurs at some index |
| Wrappers.Find | src/components/LineupChecker.jsx:105 | `find`: a found element is in the list and satisfies the test; nothing is found iff no element does |
| Wrappers.FindFirst | src/components/LineupChecker.jsx:105 | the found element is the first one satisfying the test |
| Wrappers.PresentMembers | src/features/tools/components/DraftAnalysis.jsx:56 | `filter(Boolean)` keeps exactly the present values and never lengthens the list |
| Wrappers.PresentAppend | src/features/tools/components/DraftAnalysis.jsx:56 | the filter keeps order: filtering a concatenation filters each part |
| Entities.IndexBy | src/features/league/hooks/useLineupStatus.js:27-28 | `new Map(xs.map(...))`: exactly the keys of the list, each mapped to the last element carrying it |
| Entities.Or | src/features/league/hooks/useLineupStatus.js:87 | JavaScript's `or` on two strings: a non-empty left operand, else the right one; empty only when both are |
| Entities.SeasonSlotsAppend | src/features/tools/hooks/usePlayerStats.js:9-29 | the starter slots of consecutive weeks are those of each part in order |
| JsObject.Put | src/services/sleeperEngine.js:31 | assigning a key: the new entry replaces the old; a new key goes last, an existing key keeps its place |
| JsObject.Values | src/features/analytics/components/RivalryMatrix.jsx:114 | `Object.values` lists the entries in key order |
| Sorting.Sort | src/components/TeamLineupModal.jsx:81-85 | the sort returns a permutation ordered by key |
| Sorting.SortStable | src/components/TeamLineupModal.jsx:81-85 | elements with equal keys keep their input order |
| LineupRules.VerdictReasons | src/features/league/hooks/useLineupStatus.js:56-92 | a starter stops the scan only with reason BYE, PUP, Out or its own status text, is warned about only when POTENTIAL, and a defense not on bye or an unknown id is passed over |
| LineupRules.OutFallbackNeverUsed | src/features/league/hooks/useLineupStatus.js:87 | for an INCOMPLETE player the "Out" fallback never applies, since one status text is non-empty |
| LineupRules.ScanAppend | src/features/league/hooks/useLineupStatus.js:55-93 | the scan over a concatenation is the first part's scan followed by the second's unless the first stopped |
| LineupRules.ScanStatus | src/features/league/hooks/useLineupStatus.js:55-93 | OK iff no flags; INCOMPLETE iff some starter stops; POTENTIAL iff none stops and one is warned about |
| LineupRules.ScanFlags | src/features/league/hooks/useLineupStatus.js:55-93 | every flag but the last is a warning; a stopped scan ends with the stopping starter's flag |
| LineupRules.ScanStopped | src/features/league/hooks/useLineupStatus.js:60 | once a prefix has stopped the scan, the rest of the starters is never looked at |
| LineupRules.OutcomeStatus | src/features/league/hooks/useLineupStatus.js:43-93 | a lineup is INCOMPLETE iff it has an empty slot or a stopping starter, POTENTIAL iff neither and a warned starter, and OK iff it has no flags |
| LineupRules.OutcomeFlags | src/features/league/hooks/useLineupStatus.js:43-93 | an empty slot gives exactly the one "Empty Slot" flag; otherwise the flags are warnings about the lineup's own starters, closed by a stopping flag when INCOMPLETE |
| LineupRules.EvaluateLineup | src/features/league/hooks/useLineupStatus.js:40-93 | the loop with its `break`s computes the lineup's outcome |
| LineupRules.Group | src/features/league/hooks/useLineupStatus.js:109-113 | the buckets are the teams of each status in report order |
| LineupRules.GroupPartitions | src/features/league/hooks/useLineupStatus.js:109-113 | the three buckets together hold each team exactly as often as the report |
| LineupRules.GroupSizes | src/features/league/hooks/useLineupStatus.js:109-113 | the bucket sizes add up to the number of teams |
| UseLineupStatus.Teams | src/features/league/hooks/useLineupStatus.js:30-107 | the loop builds the report value |
| UseLineupStatus.TeamsRows | src/features/league/hooks/useLineupStatus.js:31-103 | no rows without a catalog or matchups; otherwise one row per matchup, in order, with its roster and matchup ids and the outcome of its starters |
| UseLineupStatus.EmptyMatchupListIsOk | src/features/league/hooks/useLineupStatus.js:40 | a matchup with an empty starter list is OK without consulting its roster |
| UseLineupStatus.RosterFallback | src/features/league/hooks/useLineupStatus.js:40 | without a matchup list the roster's starters are checked, else none |
| UseLineupStatus.RowOwner | src/features/league/hooks/useLineupStatus.js:35-36 | the owner shown is the last user listed under the roster's owner id; without one, "Team undefined" and no thumbnail |
| LineupChecker.ByeSetForWeek | src/components/LineupChecker.jsx:17 | the table's teams for a listed week, none otherwise |
| LineupChecker.Teams | src/components/LineupChecker.jsx:22-95 | the loop builds the report value |
| LineupChecker.TeamsRows | src/components/LineupChecker.jsx:23-91 | no rows without a catalog; otherwise one row per matchup with the outcome of its own starter list |
| LineupChecker.AgreesWithHook | src/components/LineupChecker.jsx:29 | the older copy agrees with the hook on matchups that list their starters; without a list it reports OK |
| LineupChecker.CopiesDisagree | src/components/LineupChecker.jsx:29 | a matchup without a list whose roster starts an injured player: OK here, INCOMPLETE in the hook |
| LineupChecker.MatchupForTeam | src/components/LineupChecker.jsx:103-106 | nothing without a team or matchups; otherwise the first matchup of the team's roster, found whenever one exists |
| TeamLineupModal.PositionsFor | src/components/TeamLineupModal.jsx:10 | the league's layout when it sends one, else the 10-slot default |
| TeamLineupModal.Details | src/components/TeamLineupModal.jsx:12-78 | one detail per starter slot, in slot order, each the slot's detail as `TeamLineupModal.SlotDetailCases` describes it |
| TeamLineupModal.SlotDetailCases | src/components/TeamLineupModal.jsx:15-76 | an empty slot is an EMPTY, INCOMPLETE "Empty Slot" at the layout's position (FLEX past its end) with the empty flag; a D/ST id is a "`pid` D / ST" defense at DEF, INCOMPLETE "BYE" when its team is on bye and OK "Active" otherwise; an id missing from the catalog is an EMPTY, INCOMPLETE "Empty Slot" at the layout's position; a catalog player gets the trimmed "first last " name and its catalog position, else the layout's, and is INCOMPLETE "BYE" when its team is on bye before any injury check, else INCOMPLETE "PUP" when either status reads pup, else classified by injury with reason injury status, else roster status, else "Out" when INCOMPLETE, else none |
| TeamLineupModal.LineupSorted | src/components/TeamLineupModal.jsx:5-85 | nothing iff the team or matchup is missing; otherwise a permutation of the details ordered by position rank, with equal ranks in slot order |
| TeamLineupModal.SlotAgreesWithVerdict | src/components/TeamLineupModal.jsx:28-76 | a slot the checkers stop at is INCOMPLETE, one they warn about is POTENTIAL, one they pass over is OK unless missing from the catalog |
| TeamLineupModal.DialogMatchesChecker | src/components/TeamLineupModal.jsx:12-78 | an INCOMPLETE lineup has an INCOMPLETE slot, a POTENTIAL one a POTENTIAL slot, and an all-OK dialog is an OK lineup |
| TeamLineupModal.MissingPlayerDisagrees | src/components/TeamLineupModal.jsx:42-46 | an id missing from the catalog: passed over by the checkers, an empty INCOMPLETE slot in the dialog |
| PlayerStats.GamesPositive | src/features/tools/hooks/usePlayerStats.js:14-27 | a player has games iff it occupies a counted slot |
| PlayerStats.StatsEntries | src/features/tools/hooks/usePlayerStats.js:18-35 | an entry exists iff the player started in a counted slot; every entry has at least one game, and its average is the plain quotient (the guard against zero games never applies) |
| PlayerStats.GamesAddUp | src/features/tools/hooks/usePlayerStats.js:9-29 | the games of all entries add up to the number of counted slots |
| PlayerStats.WeekOrderIrrelevant | src/features/tools/hooks/usePlayerStats.js:9 | the statistics do not depend on the order of the weeks |
| PlayerStats.AddMatchup | src/features/tools/hooks/usePlayerStats.js:13-28 | one matchup's loop adds its counted slots to the running totals |
| PlayerStats.AddWeek | src/features/tools/hooks/usePlayerStats.js:12-29 | one week's loop adds its matchups' slots |
| PlayerStats.FillAverages | src/features/tools/hooks/usePlayerStats.js:33-35 | the second pass turns the running totals into the statistics |
| PlayerStats.ComputePlayerStats | src/features/tools/hooks/usePlayerStats.js:4-38 | nothing for a missing season; otherwise the statistics of every counted slot of every fetched week |
| TrueStandings.InitialStats | src/features/analytics/components/TrueStandings.jsx:20-31 | one entry per roster id, with zero all-play counters |
| TrueStandings.InitialFromLast | src/features/analytics/components/TrueStandings.jsx:20-31 | each entry is initialised from the last roster carrying its id |
| TrueStandings.Tallied | src/features/analytics/components/TrueStandings.jsx:35-60 | after the pass every entry holds the roster's season all-play record |
| TrueStandings.VersusCounts | src/features/analytics/components/TrueStandings.jsx:48-57 | each comparison with another roster increments exactly one counter; one with the same roster none |
| TrueStandings.WeekComparisons | src/features/analytics/components/TrueStandings.jsx:45-58 | a roster gains one comparison per entry of another roster for each of its own entries |
| TrueStandings.LeagueMirror | src/features/analytics/components/TrueStandings.jsx:51-57 | a win of one team over another is a loss of the other, and ties come in pairs |
| TrueStandings.WeekBalanced | src/features/analytics/components/TrueStandings.jsx:45-58 | across a week, all-play wins equal all-play losses |
| TrueStandings.CountPermutation | src/features/analytics/components/TrueStandings.jsx:48 | a team's results do not depend on the order of its opponents |
| TrueStandings.WeekCountPermutation | src/features/analytics/components/TrueStandings.jsx:45 | a week's tallies do not depend on the order in which teams are taken |
| TrueStandings.PreSortIrrelevant | src/features/analytics/components/TrueStandings.jsx:39-42 | sorting the week's scores first changes nobody's tallies |
| TrueStandings.WinPctRange | src/features/analytics/components/TrueStandings.jsx:66 | the all-play percentage lies in [0, 1], and is 0 without comparisons |
| TrueStandings.LuckRange | src/features/analytics/components/TrueStandings.jsx:70-72 | luck lies between wins minus games played and wins |
| TrueStandings.StandingsTable | src/features/analytics/components/TrueStandings.jsx:15-82 | empty while loading or without rosters or matchups; otherwise one row per roster id with its season all-play record, most all-play wins first, and every row is its entry as the row builder shows it (owner name and avatar, both records, luck index) |
| TrueStandings.ShownFields | src/features/analytics/components/TrueStandings.jsx:63-80 | a shown row holds the owner's display name (or "Team " + owner id), the thumbnail avatar URL or none, `W-L` with `-T` only when there are ties for both the actual and all-play records, and the luck index `wins - allPlayWinPct * (W+L+T)`, which lies between wins minus games played and wins |
| TrueStandings.StandingsTies | src/features/analytics/components/TrueStandings.jsx:63-82 | rows with equal all-play wins keep ascending roster id order |
| TrueStandings.Initialise | src/features/analytics/components/TrueStandings.jsx:20-32 | the loop computes the initial entries |
| TrueStandings.CompareWeek | src/features/analytics/components/TrueStandings.jsx:45-59 | every known team's counters grow by its week all-play record; no other entry changes |
| TrueStandings.CompareSeason | src/features/analytics/components/TrueStandings.jsx:35-60 | the pass over the fetched weeks computes the tallied entries |
| TrueStandings.ComputeStandings | src/features/analytics/components/TrueStandings.jsx:14-84 | the memo computes the standings table |
| TeamRadar.Counted | src/features/analytics/components/TeamRadar.jsx:54 | a position counts iff it is QB, RB, WR or TE, and never as FLEX |
| TeamRadar.SubjectsAreFour | src/features/analytics/components/TeamRadar.jsx:67 | dropping FLEX leaves QB, RB, WR, TE in that order |
| TeamRadar.RadarShape | src/features/analytics/components/TeamRadar.jsx:9-72 | empty when a guard fails; otherwise four spokes QB, RB, WR, TE with scale 30, each average 0 without a counted slot of the season and otherwise the points of those slots over their number, for the league and for the user's roster |
| TeamRadar.RadarOfShape | src/features/analytics/components/TeamRadar.jsx:67-72 | each average is 0 without slots, else their points over their number |
| TeamRadar.UserWithinLeague | src/features/analytics/components/TeamRadar.jsx:55-60 | the user's slots for a position are a sub-multiset of the league's, all on the user's roster, so the user count never exceeds the league count |
| TeamRadar.LeagueSlotsMembers | src/features/analytics/components/TeamRadar.jsx:24-54 | a position's slots are exactly the non-empty slots whose catalog player plays it |
| TeamRadar.FlexNeverCounted | src/features/analytics/components/TeamRadar.jsx:54 | the FLEX tallies stay at 0 |
| TeamRadar.RowsOfHolds | src/features/analytics/components/TeamRadar.jsx:67-72 | tallies that hold for the slots give the chart of the slots |
| TeamRadar.CountSeason | src/features/analytics/components/TeamRadar.jsx:17-64 | the loops leave the sums and counts of every counted slot of the season |
| TeamRadar.ComputeRadar | src/features/analytics/components/TeamRadar.jsx:8-74 | the memo computes the chart |
| TradeFinder.PoolMembers | src/features/tools/components/TradeFinder.jsx:55-61 | the pool of a position holds exactly the players with statistics and a catalog entry of that position |
| TradeFinder.RankingOrder | src/features/tools/components/TradeFinder.jsx:63-64 | the ranking is a permutation of the pool by average points, highest first |
| TradeFinder.Top24WithinTop40 | src/features/tools/components/TradeFinder.jsx:66-72 | every top-24 player is a top-40 player |
| TradeFinder.SurplusMeaning | src/features/tools/components/TradeFinder.jsx:81-90 | a position is in surplus iff more than 3 of the roster's players are in its top 24; WR comes before RB |
| TradeFinder.DeficitMeaning | src/features/tools/components/TradeFinder.jsx:95-107 | a position is in deficit iff some starter of that position is outside its top 40; WR comes before RB |
| TradeFinder.AnalysisMembers | src/features/tools/components/TradeFinder.jsx:76-117 | the analysis holds exactly the rosters' entries with a surplus or a deficit |
| TradeFinder.AnalysedTeamsTrade | src/features/tools/components/TradeFinder.jsx:109 | every analysed team has a surplus or a deficit |
| TradeFinder.TradesExactly | src/features/tools/components/TradeFinder.jsx:120-136 | the trades are exactly the triples of two different teams where the position is a surplus of the first and a deficit of the second |
| TradeFinder.RankPlayers | src/features/tools/components/TradeFinder.jsx:53-64 | the loop builds both rankings |
| TradeFinder.AnalyseRoster | src/features/tools/components/TradeFinder.jsx:77-116 | one roster's analysis, as the loop computes it |
| TradeFinder.Analyse | src/features/tools/components/TradeFinder.jsx:74-117 | the loop builds the analysis |
| TradeFinder.Matchmake | src/features/tools/components/TradeFinder.jsx:120-136 | the nested loops build the trades in order of first team, position, second team |
| TradeFinder.FindOpportunities | src/features/tools/components/TradeFinder.jsx:16-138 | the memo computes the trade opportunities |
| DraftAnalysis.NeverBoth | src/features/tools/components/DraftAnalysis.jsx:45-46 | no pick is both a steal and a bust |
| DraftAnalysis.DataMeaning | src/features/tools/components/DraftAnalysis.jsx:30-56 | nothing without picks or a catalog; at most one point per pick; every point copies its pick number, season points, catalog `first_name + " " + last_name` and position, and carries the steal and bust thresholds |
| DraftAnalysis.DataInPickOrder | src/features/tools/components/DraftAnalysis.jsx:32-56 | the points keep pick order |
| DraftAnalysis.DataComplete | src/features/tools/components/DraftAnalysis.jsx:37 | every pick with statistics and a catalog player is plotted |
| RivalryMatrix.WeekGameMeaning | src/features/analytics/components/RivalryMatrix.jsx:66-110 | a counted week has the user's first matchup with a non-zero id, the first matchup of a different roster sharing that id, whose roster has the opponent as owner, and a win iff more points and a loss iff fewer |
| RivalryMatrix.WeekSkipped | src/features/analytics/components/RivalryMatrix.jsx:67-71 | a week without data, without the user's matchup or with a falsy matchup id counts nothing |
| RivalryMatrix.OpponentSkipped | src/features/analytics/components/RivalryMatrix.jsx:74-79 | a week without an opponent entry, or whose opponent roster has no owner, counts nothing |
| RivalryMatrix.ScoreConsistent | src/features/analytics/components/RivalryMatrix.jsx:101-110 | counting a game keeps the per-season wins and losses adding up to the totals |
| RivalryMatrix.TallyKeys | src/features/analytics/components/RivalryMatrix.jsx:83-99 | an opponent has an entry iff some counted game was against them, ties included |
| RivalryMatrix.MetMeaning | src/features/analytics/components/RivalryMatrix.jsx:83-99 | having met an opponent means some game names them |
| RivalryMatrix.TallyRows | src/features/analytics/components/RivalryMatrix.jsx:83-110 | an entry is named "User " + id, its totals count its wins and losses, and its seasons add up to them |
| RivalryMatrix.MatrixOrder | src/features/analytics/components/RivalryMatrix.jsx:53-114 | nothing without history or fetched matchups; otherwise a permutation of the entries, most games first |
| RivalryMatrix.MatrixStable | src/features/analytics/components/RivalryMatrix.jsx:114 | entries with equal game counts keep their first-met order |
| RivalryMatrix.MatrixRows | src/features/analytics/components/RivalryMatrix.jsx:52-115 | every row is an opponent met, with totals that count the games and per-season records that add up to them |
| RivalryMatrix.PlayLeague | src/features/analytics/components/RivalryMatrix.jsx:66-111 | one league's week loop adds that league's games to the tallies |
| RivalryMatrix.ComputeMatrix | src/features/analytics/components/RivalryMatrix.jsx:52-115 | the memo computes the matrix |
| SleeperEngine.OwnerIndexMeaning | src/services/sleeperEngine.js:29-32 | the index holds exactly the truthy owner ids, each with the last roster they own |
| SleeperEngine.UserRosterMeaning | src/services/sleeperEngine.js:26-35 | the user's roster is the last one they own, none iff they own none |
| SleeperEngine.WalkFollowsChain | src/services/sleeperEngine.js:13-57 | one record per league on the chain, each the previous league of the one before, ending at a falsy, unknown or failing id |
| SleeperEngine.WalkBoundIrrelevant | src/services/sleeperEngine.js:51-53 | any sufficient bound gives the same walk |
| SleeperEngine.SelfLoopNeverEnds | src/services/sleeperEngine.js:51-53 | a league naming itself as previous is walked forever |
| SleeperEngine.HistoryOrder | src/services/sleeperEngine.js:63 | the history is the walk's records newest season first, equal seasons in visiting order |
| SleeperEngine.IndexRosters | src/services/sleeperEngine.js:25-37 | the roster loop computes the owner index and the user's roster |
| SleeperEngine.FetchLeagueHistory | src/services/sleeperEngine.js:10-64 | the walk and sort compute the history |
| NflSchedule.ByeMeaning | src/services/nflSchedule.js:16-47 | a failure or an event without a competition gives nothing; otherwise the franchises no competitor represents, in list order, each once |
| NflSchedule.NoGamesAllOnBye | src/services/nflSchedule.js:16-31 | without events every franchise is on bye |
| NflSchedule.NormalizeNeverFires | src/services/nflSchedule.js:39-42 | the WSH correction never changes a list of franchises |
| NflSchedule.UnscheduledMembers | src/services/nflSchedule.js:31 | the filter keeps exactly the teams not playing |
| NflSchedule.CollectPlaying | src/services/nflSchedule.js:19-28 | the loops collect the first competition's teams of every event, failing iff an event has no competition |
| NflSchedule.GetTeamsOnBye | src/services/nflSchedule.js:8-48 | the lookup computes the bye list |
| NflSchedule.WashingtonReportedOnBye | src/services/nflSchedule.js:31-42 | as written, Washington playing as "WSH" is reported on bye |
| NflSchedule.CorrectedByeMeaning | src/services/nflSchedule.js:31-42 | with the correction applied to the scoreboard's teams, a franchise is on bye iff no competitor represents it under either spelling |
| NflSchedule.WashingtonNotOnBye | src/services/nflSchedule.js:31-42 | with the correction, Washington playing as "WSH" is not on bye |
| NflSchedule.CorrectionAgrees | src/services/nflSchedule.js:31-42 | without a "WSH" competitor the corrected lookup equals the one as written |
| Navbar.FirstMatch | src/components/layout/Navbar.jsx:11 | the leftmost index where "/league/" followed by a digit occurs |
| Navbar.DigitRun | src/components/layout/Navbar.jsx:11 | the greedy digit run: all digits and maximal |
| Navbar.NoLeagueId | src/components/layout/Navbar.jsx:12 | no league id iff "/league/" is never followed by a digit |
| Navbar.LeagueIdMeaning | src/components/layout/Navbar.jsx:11-12 | a league id is a non-empty maximal digit run right after the first "/league/" that a digit follows |
| Navbar.IsActive | src/components/layout/Navbar.jsx:14 | an entry is active iff its path occurs in the current path |

## Left out

- Network calls are parameters of the model, not requests:
  - the `utils/sleeper.js` fetch wrappers and `useSeasonMatchups`;
  - the rivalry matrix's history effect: its result is the `fetched` map;
  - the scoreboard request: its result is the `Scoreboard` value;
  - the draft-pick load;
  - the lineup hook's bye-fetch effect: its result is the bye set.
- React state, memoisation, and the loading and mounted flags are left out. Where a memo reads `loading`, it is a parameter.
- Markup, charts, colours and `toFixed(2)` formatting are left out. Points are exact reals; floating-point rounding is not modelled.
- The true standings' `actualWinPct` is computed but never used, so it is not modelled.
- The first per-roster loop of the trade finder (TradeFinder.jsx lines 22-50) only fills local arrays that are never read, so it is not modelled.
- Two renderings of `undefined` as text are not modelled, because "" stands for undefined:
  - the draft analysis renders a missing first or last name as "undefined"; the model joins empty strings instead;
  - the team name of a user without a `user_id` (nflData.js line 75) is "Team undefined" in the source and "Team " in the model.
- The rivalry matrix's `avatar` field is always null and is not modelled.
- The lineup checker's week lookup from the league state (LineupChecker.jsx line 13) is not modelled; `ByeSetForWeek` takes `Number(week)` as an optional integer.
- Two scoreboard shapes are not represented:
  - a competitor without a `team` object;
  - an event without a `competitors` array.

  In the source both throw and are caught, giving []. The model covers only a missing first competition.
- Lower-casing is modelled for ASCII letters only, and `String(...)` coercion of non-string status values is not modelled.
- TradeFinder.FindOpportunities: takes `Object.keys(playerStats)` as a parameter that enumerates the statistics once each; the engine's key order is not derived.
- PlayerStats.ComputePlayerStats: requires every matchup to have a starter list. With a null list the source throws; that error path is not modelled. A null `starters_points` array is read as [], so every slot scores 0, where the source (usePlayerStats.js line 16) indexes it unguarded and throws; that error path is not modelled either.
- TeamRadar.ComputeRadar: requires, besides starter lists, a points entry for every starter. Without one the source adds `undefined` and the average becomes NaN, which the model does not represent.
- SleeperEngine.FetchLeagueHistory: requires that the chain of previous leagues ends (a ghost bound). On a cyclic chain the source recurses forever, as `SelfLoopNeverEnds` states; without a visited set there is no result to model.
- RivalryMatrix.ComputeMatrix: requires that every history entry's owner index is well formed, which the history walk guarantees (`OwnerIndex` ensures it).

## Findings

| source | as written | input that shows it | evidently intended | confidence | as-written member | corrected member |
|---|---|---|---|---|---|---|
| src/services/nflSchedule.js:31-42 | the WSH→WAS correction is applied to the bye list, built from the franchise list that never contains "WSH", so it never fires, while the scoreboard's "WSH" is compared unconverted against "WAS" | a week whose only game is WSH against DAL: "WAS" is in the bye list | convert the scoreboard's abbreviations before comparing, so a playing Washington is not on bye | high (the comment at line 36 states that the scoreboard spells it WSH); not executed | NflSchedule.WashingtonReportedOnBye | NflSchedule.WashingtonNotOnBye |
