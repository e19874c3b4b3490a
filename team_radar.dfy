/**
 * The positional-strength radar: for QB, RB, WR and TE, the average points a
 * starter of that position scored across the league and on the user's team.
 */
module TeamRadar {
  import opened Wrappers
  import opened Entities

  /** The keys of the tally objects. */
  datatype Pos = QB | RB | WR | TE | FLEX

  /** The keys in declaration order. */
  const Positions: seq<Pos> := [QB, RB, WR, TE, FLEX]

  /** The key as it is written. */
  function Name(p: Pos): string {
    match p
    case QB => "QB"
    case RB => "RB"
    case WR => "WR"
    case TE => "TE"
    case FLEX => "FLEX"
  }

  /** `['QB', 'RB', 'WR', 'TE'].includes(pos)`: the key a catalog position is counted under, if any. */
  function Counted(position: string): (r: Option<Pos>)
    ensures r.Some? <==> position in {"QB", "RB", "WR", "TE"}
    ensures r.Some? ==> Name(r.value) == position && r.value != FLEX
  {
    if position == "QB" then Some(QB)
    else if position == "RB" then Some(RB)
    else if position == "WR" then Some(WR)
    else if position == "TE" then Some(TE)
    else None
  }

  /** The key a slot counts towards: its catalog player's position, when that is counted. */
  function SlotPosition(x: Slot, players: Catalog): Option<Pos> {
    if x.pid in players then Counted(players[x.pid].position) else None
  }

  /** The slots of the league that count towards `pos`, in season order. */
  function LeagueSlots(slots: seq<Slot>, players: Catalog, pos: Pos): seq<Slot> {
    if slots == [] then []
    else
      var x := slots[|slots| - 1];
      LeagueSlots(slots[..|slots| - 1], players, pos) + (if SlotPosition(x, players) == Some(pos) then [x] else [])
  }

  /** The slots of roster `rid` among `slots`, in order. */
  function OfRoster(slots: seq<Slot>, rid: nat): seq<Slot> {
    if slots == [] then []
    else
      var x := slots[|slots| - 1];
      OfRoster(slots[..|slots| - 1], rid) + (if x.rosterId == rid then [x] else [])
  }

  /** The user's slots that count towards `pos`. */
  function UserSlots(slots: seq<Slot>, players: Catalog, pos: Pos, user: nat): seq<Slot> {
    OfRoster(LeagueSlots(slots, players, pos), user)
  }

  /** The points of `slots`, added up. */
  function SumPoints(slots: seq<Slot>): real {
    if slots == [] then 0.0 else SumPoints(slots[..|slots| - 1]) + slots[|slots| - 1].points
  }

  /** `count ? sum / count : 0`. */
  function Avg(sum: real, count: nat): real {
    if count == 0 then 0.0 else sum / count as real
  }

  // ---------------------------------------------------------------------
  // What the averages mean

  /** One spoke of the radar chart. */
  datatype Axis = Axis(subject: string, leagueAvg: real, myTeam: real, fullMark: nat)

  /** The spoke for `pos`, computed from the counted slots. */
  function AxisOf(slots: seq<Slot>, players: Catalog, user: nat, pos: Pos): Axis {
    var league := LeagueSlots(slots, players, pos);
    var mine := UserSlots(slots, players, pos, user);
    Axis(Name(pos), Avg(SumPoints(league), |league|), Avg(SumPoints(mine), |mine|), 30)
  }

  /** `positions.filter(p => p !== 'FLEX')`. */
  function WithoutFlex(ps: seq<Pos>): (r: seq<Pos>)
    ensures forall i :: 0 <= i < |r| ==> r[i] != FLEX && r[i] in ps
  {
    if ps == [] then []
    else WithoutFlex(ps[..|ps| - 1]) + (if ps[|ps| - 1] != FLEX then [ps[|ps| - 1]] else [])
  }

  lemma SubjectsAreFour()
    ensures WithoutFlex(Positions) == [QB, RB, WR, TE]
  {
    assert [QB][..0] == [];
    assert WithoutFlex([QB]) == [QB];
    assert [QB, RB][..1] == [QB];
    assert WithoutFlex([QB, RB]) == [QB, RB];
    assert [QB, RB, WR][..2] == [QB, RB];
    assert WithoutFlex([QB, RB, WR]) == [QB, RB, WR];
    assert [QB, RB, WR, TE][..3] == [QB, RB, WR];
    assert WithoutFlex([QB, RB, WR, TE]) == [QB, RB, WR, TE];
    assert Positions[..4] == [QB, RB, WR, TE];
  }

  /** The four spokes computed from the slots of a season. */
  function RadarOf(slots: seq<Slot>, players: Catalog, user: nat): seq<Axis> {
    var subjects := WithoutFlex(Positions);
    seq(|subjects|, i requires 0 <= i < |subjects| => AxisOf(slots, players, user, subjects[i]))
  }

  /** Every matchup has a starter list and a points entry for each of its starters. */
  predicate RadarReady(season: Season) {
    StartersPresent(season) &&
    forall w, k :: 0 <= w < |season| && season[w].Some? && 0 <= k < |season[w].value| ==>
      |season[w].value[k].starters.value| <= |season[w].value[k].startersPoints|
  }

  /** The `data` memo: nothing while loading or without matchups, players or a user roster id. */
  function Radar(loading: bool, season: Option<Season>, players: Option<Catalog>, userRosterId: Option<nat>): seq<Axis>
    requires season.Some? ==> StartersPresent(season.value)
  {
    if loading || season.None? || players.None? || userRosterId.None? || userRosterId.value == 0 then []
    else RadarOf(SeasonSlots(season.value), players.value, userRosterId.value)
  }

  // ---------------------------------------------------------------------
  // Properties

  /** The spokes computed from slots: QB, RB, WR, TE, each average 0 without a slot, else the mean. */
  lemma RadarOfShape(slots: seq<Slot>, players: Catalog, user: nat)
    ensures var r := RadarOf(slots, players, user);
            |r| == 4 &&
            forall i :: 0 <= i < 4 ==>
              var p := [QB, RB, WR, TE][i];
              var league := LeagueSlots(slots, players, p);
              var mine := UserSlots(slots, players, p, user);
              r[i].subject == Name(p) && r[i].fullMark == 30 &&
              r[i].leagueAvg == (if |league| == 0 then 0.0 else SumPoints(league) / |league| as real) &&
              r[i].myTeam == (if |mine| == 0 then 0.0 else SumPoints(mine) / |mine| as real)
  {
    SubjectsAreFour();
  }

  /**
   * The chart: empty when a guard fails; otherwise exactly four spokes QB, RB,
   * WR, TE with scale 30, each average 0 without a counted slot and otherwise
   * the points of its slots over their number.
   */
  lemma RadarShape(loading: bool, season: Option<Season>, players: Option<Catalog>, userRosterId: Option<nat>)
    requires season.Some? ==> StartersPresent(season.value)
    ensures loading || season.None? || players.None? || userRosterId.None? || userRosterId.value == 0 ==>
              Radar(loading, season, players, userRosterId) == []
    ensures !loading && season.Some? && players.Some? && userRosterId.Some? && userRosterId.value != 0 ==>
              var r := Radar(loading, season, players, userRosterId);
              var slots := SeasonSlots(season.value);
              |r| == 4 &&
              forall i :: 0 <= i < 4 ==>
                var p := [QB, RB, WR, TE][i];
                var league := LeagueSlots(slots, players.value, p);
                var mine := UserSlots(slots, players.value, p, userRosterId.value);
                r[i].subject == Name(p) && r[i].fullMark == 30 &&
                r[i].leagueAvg == (if |league| == 0 then 0.0 else SumPoints(league) / |league| as real) &&
                r[i].myTeam == (if |mine| == 0 then 0.0 else SumPoints(mine) / |mine| as real)
  {
    if !loading && season.Some? && players.Some? && userRosterId.Some? && userRosterId.value != 0 {
      RadarOfShape(SeasonSlots(season.value), players.value, userRosterId.value);
    }
  }

  lemma {:induction false} OfRosterWithin(slots: seq<Slot>, rid: nat)
    ensures multiset(OfRoster(slots, rid)) <= multiset(slots)
    ensures |OfRoster(slots, rid)| <= |slots|
    ensures forall k :: 0 <= k < |OfRoster(slots, rid)| ==> OfRoster(slots, rid)[k].rosterId == rid
  {
    if slots != [] {
      var init, x := slots[..|slots| - 1], slots[|slots| - 1];
      OfRosterWithin(init, rid);
      assert slots == init + [x];
      assert multiset(slots) == multiset(init) + multiset{x};
      var tail := if x.rosterId == rid then [x] else [];
      assert OfRoster(slots, rid) == OfRoster(init, rid) + tail;
      assert multiset(OfRoster(slots, rid)) == multiset(OfRoster(init, rid)) + multiset(tail);
    }
  }

  /**
   * The user's slots for a position are some of the league's slots for it, all
   * on the user's roster; so the user count never exceeds the league count.
   */
  lemma UserWithinLeague(slots: seq<Slot>, players: Catalog, pos: Pos, user: nat)
    ensures multiset(UserSlots(slots, players, pos, user)) <= multiset(LeagueSlots(slots, players, pos))
    ensures |UserSlots(slots, players, pos, user)| <= |LeagueSlots(slots, players, pos)|
    ensures forall k :: 0 <= k < |UserSlots(slots, players, pos, user)| ==> UserSlots(slots, players, pos, user)[k].rosterId == user
  {
    OfRosterWithin(LeagueSlots(slots, players, pos), user);
  }

  /** The slots of a position are exactly the slots whose catalog player plays it. */
  lemma {:induction false} LeagueSlotsMembers(slots: seq<Slot>, players: Catalog, pos: Pos)
    ensures forall k :: 0 <= k < |LeagueSlots(slots, players, pos)| ==>
              LeagueSlots(slots, players, pos)[k] in slots && SlotPosition(LeagueSlots(slots, players, pos)[k], players) == Some(pos)
    ensures forall k :: 0 <= k < |slots| && SlotPosition(slots[k], players) == Some(pos) ==> slots[k] in LeagueSlots(slots, players, pos)
  {
    if slots != [] {
      var init, x := slots[..|slots| - 1], slots[|slots| - 1];
      LeagueSlotsMembers(init, players, pos);
      assert slots == init + [x];
    }
  }

  /** FLEX is never a player's counted position, so its tallies stay at 0. */
  lemma {:induction false} FlexNeverCounted(slots: seq<Slot>, players: Catalog)
    ensures LeagueSlots(slots, players, FLEX) == []
  {
    if slots != [] {
      FlexNeverCounted(slots[..|slots| - 1], players);
    }
  }

  // ---------------------------------------------------------------------
  // The tallies

  /** `leagueSums`, `leagueCounts`, `userSums`, `userCounts`, keyed by position. */
  datatype Tally = Tally(
    leagueSums: map<Pos, real>,
    leagueCounts: map<Pos, nat>,
    userSums: map<Pos, real>,
    userCounts: map<Pos, nat>)

  /** Every tally object holds the five position keys. */
  predicate HasKeys(t: Tally) {
    forall p: Pos :: p in t.leagueSums && p in t.leagueCounts && p in t.userSums && p in t.userCounts
  }

  /** For position `p`, `t` holds the sums and counts of `slots`. */
  ghost predicate HoldsAt(t: Tally, slots: seq<Slot>, players: Catalog, user: nat, p: Pos)
    requires HasKeys(t)
  {
    t.leagueSums[p] == SumPoints(LeagueSlots(slots, players, p)) &&
    t.leagueCounts[p] == |LeagueSlots(slots, players, p)| &&
    t.userSums[p] == SumPoints(UserSlots(slots, players, p, user)) &&
    t.userCounts[p] == |UserSlots(slots, players, p, user)|
  }

  /** `t` holds, for every position, the sums and counts of `slots`. */
  ghost predicate Holds(t: Tally, slots: seq<Slot>, players: Catalog, user: nat) {
    HasKeys(t) && forall p: Pos :: HoldsAt(t, slots, players, user, p)
  }

  /** The spoke for `p` read off the tallies. */
  function RowOf(t: Tally, p: Pos): Axis
    requires HasKeys(t)
  {
    Axis(Name(p), Avg(t.leagueSums[p], t.leagueCounts[p]), Avg(t.userSums[p], t.userCounts[p]), 30)
  }

  /** The averages table read off the tallies. */
  function Rows(t: Tally): seq<Axis>
    requires HasKeys(t)
  {
    var subjects := WithoutFlex(Positions);
    seq(|subjects|, i requires 0 <= i < |subjects| => RowOf(t, subjects[i]))
  }

  /** Tallies that hold for the slots give the chart of the slots. */
  lemma RowsOfHolds(t: Tally, slots: seq<Slot>, players: Catalog, user: nat)
    requires Holds(t, slots, players, user)
    ensures Rows(t) == RadarOf(slots, players, user)
  {
    var a, b := Rows(t), RadarOf(slots, players, user);
    forall i | 0 <= i < |a| ensures a[i] == b[i] {
      var p := WithoutFlex(Positions)[i];
      assert HoldsAt(t, slots, players, user, p);
    }
  }

  /** One more slot extends the league slots of its own position only. */
  lemma LeagueStep(slots: seq<Slot>, x: Slot, players: Catalog, pos: Pos)
    ensures SlotPosition(x, players) == Some(pos) ==>
              LeagueSlots(slots + [x], players, pos) == LeagueSlots(slots, players, pos) + [x]
    ensures SlotPosition(x, players) != Some(pos) ==>
              LeagueSlots(slots + [x], players, pos) == LeagueSlots(slots, players, pos)
  {
    assert (slots + [x])[..|slots|] == slots;
    assert LeagueSlots(slots, players, pos) + [] == LeagueSlots(slots, players, pos);
  }

  /** One more slot extends the slots of its own roster only. */
  lemma OfRosterStep(slots: seq<Slot>, x: Slot, rid: nat)
    ensures x.rosterId == rid ==> OfRoster(slots + [x], rid) == OfRoster(slots, rid) + [x]
    ensures x.rosterId != rid ==> OfRoster(slots + [x], rid) == OfRoster(slots, rid)
  {
    assert (slots + [x])[..|slots|] == slots;
    assert OfRoster(slots, rid) + [] == OfRoster(slots, rid);
  }

  lemma SumPointsStep(slots: seq<Slot>, x: Slot)
    ensures SumPoints(slots + [x]) == SumPoints(slots) + x.points
  {
    assert (slots + [x])[..|slots|] == slots;
  }

  /** A slot that counts for no position leaves the tallies as they are. */
  lemma HoldsSkip(t: Tally, slots: seq<Slot>, x: Slot, players: Catalog, user: nat)
    requires Holds(t, slots, players, user) && SlotPosition(x, players).None?
    ensures Holds(t, slots + [x], players, user)
  {
    forall p: Pos ensures HoldsAt(t, slots + [x], players, user, p) {
      assert HoldsAt(t, slots, players, user, p);
      LeagueStep(slots, x, players, p);
    }
  }

  /** The tallies of one position after a slot: bumped when the slot counts there, else unchanged. */
  lemma HoldsAtStep(t: Tally, slots: seq<Slot>, x: Slot, players: Catalog, user: nat, p: Pos, t': Tally)
    requires HasKeys(t) && HasKeys(t') && HoldsAt(t, slots, players, user, p)
    requires var here := SlotPosition(x, players) == Some(p);
             var mine := here && x.rosterId == user;
             t'.leagueSums[p] == t.leagueSums[p] + (if here then x.points else 0.0) &&
             t'.leagueCounts[p] == t.leagueCounts[p] + (if here then 1 else 0) &&
             t'.userSums[p] == t.userSums[p] + (if mine then x.points else 0.0) &&
             t'.userCounts[p] == t.userCounts[p] + (if mine then 1 else 0)
    ensures HoldsAt(t', slots + [x], players, user, p)
  {
    var league, mine := LeagueSlots(slots, players, p), UserSlots(slots, players, p, user);
    LeagueStep(slots, x, players, p);
    if SlotPosition(x, players) == Some(p) {
      OfRosterStep(league, x, user);
      SumPointsStep(league, x);
      SumPointsStep(mine, x);
    }
  }

  /** A counted slot adds its points and one to its position, and to the user's when it is theirs. */
  lemma HoldsBump(t: Tally, slots: seq<Slot>, x: Slot, players: Catalog, user: nat, t': Tally)
    requires Holds(t, slots, players, user) && SlotPosition(x, players).Some?
    requires var pos := SlotPosition(x, players).value;
             t'.leagueSums == t.leagueSums[pos := t.leagueSums[pos] + x.points] &&
             t'.leagueCounts == t.leagueCounts[pos := t.leagueCounts[pos] + 1] &&
             (x.rosterId == user ==>
                t'.userSums == t.userSums[pos := t.userSums[pos] + x.points] &&
                t'.userCounts == t.userCounts[pos := t.userCounts[pos] + 1]) &&
             (x.rosterId != user ==> t'.userSums == t.userSums && t'.userCounts == t.userCounts)
    ensures Holds(t', slots + [x], players, user)
  {
    forall p: Pos ensures HoldsAt(t', slots + [x], players, user, p) {
      HoldsAtStep(t, slots, x, players, user, p, t');
    }
  }

  lemma EveryPos(p: Pos)
    ensures p in {QB, RB, WR, TE, FLEX}
  {
    if p.FLEX? {
      assert p == FLEX;
    }
  }

  /** Tallies at zero for every position. */
  function Zero(): (t: Tally)
    ensures HasKeys(t)
  {
    var sums := map[QB := 0.0, RB := 0.0, WR := 0.0, TE := 0.0, FLEX := 0.0];
    var counts := map[QB := 0, RB := 0, WR := 0, TE := 0, FLEX := 0];
    assert forall p: Pos :: p in sums && p in counts by {
      forall p: Pos ensures p in sums && p in counts {
        EveryPos(p);
      }
    }
    Tally(sums, counts, sums, counts)
  }

  lemma ZeroHolds(players: Catalog, user: nat)
    ensures Holds(Zero(), [], players, user)
  {
  }

  // ---------------------------------------------------------------------
  // The loops

  /** The body of `starters.forEach` for a non-empty slot: counted when its player plays a radar position. */
  method CountSlot(t: Tally, x: Slot, players: Catalog, userRosterId: nat, ghost slots: seq<Slot>) returns (t': Tally)
    requires Holds(t, slots, players, userRosterId)
    ensures Holds(t', slots + [x], players, userRosterId)
  {
    var player := if x.pid in players then Some(players[x.pid]) else None;
    if player.None? || Counted(player.value.position).None? {
      HoldsSkip(t, slots, x, players, userRosterId);
      return t;
    }
    var pos := Counted(player.value.position).value;
    var leagueSums := t.leagueSums[pos := t.leagueSums[pos] + x.points];
    var leagueCounts := t.leagueCounts[pos := t.leagueCounts[pos] + 1];
    var userSums, userCounts := t.userSums, t.userCounts;
    if x.rosterId == userRosterId {
      userSums := userSums[pos := userSums[pos] + x.points];
      userCounts := userCounts[pos := userCounts[pos] + 1];
    }
    t' := Tally(leagueSums, leagueCounts, userSums, userCounts);
    HoldsBump(t, slots, x, players, userRosterId, t');
  }

  /** One matchup's `starters.forEach`. */
  method CountMatchup(t: Tally, m: Matchup, players: Catalog, userRosterId: nat, ghost prefix: seq<Slot>) returns (t': Tally)
    requires m.starters.Some? && |m.starters.value| <= |m.startersPoints|
    requires Holds(t, prefix, players, userRosterId)
    ensures Holds(t', prefix + AllMatchupSlots(m), players, userRosterId)
  {
    t' := t;
    var starters := m.starters.value;
    assert prefix + MatchupSlots(m, 0) == prefix;
    for j := 0 to |starters|
      invariant Holds(t', prefix + MatchupSlots(m, j), players, userRosterId)
    {
      var pid := starters[j];
      if EmptySlot(pid) {
        assert prefix + MatchupSlots(m, j + 1) == prefix + MatchupSlots(m, j);
      } else {
        var x := Slot(m.rosterId, pid, m.startersPoints[j]);
        assert prefix + MatchupSlots(m, j + 1) == (prefix + MatchupSlots(m, j)) + [x];
        t' := CountSlot(t', x, players, userRosterId, prefix + MatchupSlots(m, j));
      }
    }
  }

  /** One week's `weekMatchups.forEach`. */
  method CountWeek(t: Tally, ms: seq<Matchup>, players: Catalog, userRosterId: nat, ghost prefix: seq<Slot>) returns (t': Tally)
    requires WeekStartersPresent(ms)
    requires forall k :: 0 <= k < |ms| ==> |ms[k].starters.value| <= |ms[k].startersPoints|
    requires Holds(t, prefix, players, userRosterId)
    ensures Holds(t', prefix + WeekSlots(ms), players, userRosterId)
  {
    t' := t;
    assert ms[..0] == [];
    assert prefix + WeekSlots(ms[..0]) == prefix;
    for k := 0 to |ms|
      invariant Holds(t', prefix + WeekSlots(ms[..k]), players, userRosterId)
    {
      WeekSlotsStep(ms, k);
      t' := CountMatchup(t', ms[k], players, userRosterId, prefix + WeekSlots(ms[..k]));
      assert prefix + WeekSlots(ms[..k]) + AllMatchupSlots(ms[k]) == prefix + WeekSlots(ms[..k + 1]);
    }
    assert ms[..|ms|] == ms;
  }

  /** `Object.values(seasonMatchups).forEach`: every fetched week, in week order. */
  method CountSeason(weeks: Season, players: Catalog, userRosterId: nat) returns (t: Tally)
    requires RadarReady(weeks)
    ensures Holds(t, SeasonSlots(weeks), players, userRosterId)
  {
    t := Zero();
    ZeroHolds(players, userRosterId);
    for w := 0 to |weeks|
      invariant Holds(t, SeasonSlots(weeks[..w]), players, userRosterId)
    {
      SeasonSlotsStep(weeks, w);
      if weeks[w].Some? {
        t := CountWeek(t, weeks[w].value, players, userRosterId, SeasonSlots(weeks[..w]));
      } else {
        assert SeasonSlots(weeks[..w]) + [] == SeasonSlots(weeks[..w]);
      }
    }
    assert weeks[..|weeks|] == weeks;
  }

  /** The `data` memo of the radar chart. */
  method ComputeRadar(loading: bool, season: Option<Season>, players: Option<Catalog>, userRosterId: Option<nat>)
    returns (data: seq<Axis>)
    requires season.Some? ==> RadarReady(season.value)
    ensures data == Radar(loading, season, players, userRosterId)
  {
    if loading || season.None? || players.None? || userRosterId.None? || userRosterId.value == 0 {
      return [];
    }
    var t := CountSeason(season.value, players.value, userRosterId.value);
    RowsOfHolds(t, SeasonSlots(season.value), players.value, userRosterId.value);
    data := Rows(t);
  }
}
