/**
 * The season statistics hook: for every player who started, the points
 * scored in counted starter slots, the number of such slots, and the average.
 */
module PlayerStats {
  import opened Wrappers
  import opened Entities

  /** A player's line: `totalPoints`, `gamesPlayed`, `avgPoints`. */
  datatype Stat = Stat(totalPoints: real, gamesPlayed: nat, avgPoints: real)

  /** The number of slots of `slots` started by `pid`. */
  function Games(slots: seq<Slot>, pid: string): nat {
    if slots == [] then 0
    else Games(slots[..|slots| - 1], pid) + (if slots[|slots| - 1].pid == pid then 1 else 0)
  }

  /** The points `pid` scored in `slots`. */
  function Total(slots: seq<Slot>, pid: string): real {
    if slots == [] then 0.0
    else Total(slots[..|slots| - 1], pid) + (if slots[|slots| - 1].pid == pid then slots[|slots| - 1].points else 0.0)
  }

  /** The players that occur in `slots`. */
  function Pids(slots: seq<Slot>): set<string> {
    set i | 0 <= i < |slots| :: slots[i].pid
  }

  /** The players of a list with one more slot: those of the list and the new slot's player. */
  lemma PidsSnoc(slots: seq<Slot>, x: Slot)
    ensures Pids(slots + [x]) == Pids(slots) + {x.pid}
  {
    var s := slots + [x];
    forall p | p in Pids(s) ensures p in Pids(slots) + {x.pid} {
      var i :| 0 <= i < |s| && s[i].pid == p;
      if i < |slots| {
        assert slots[i] == s[i];
      }
    }
    forall p | p in Pids(slots) + {x.pid} ensures p in Pids(s) {
      if p == x.pid {
        assert s[|slots|] == x;
      } else {
        var i :| 0 <= i < |slots| && slots[i].pid == p;
        assert s[i] == slots[i];
      }
    }
  }

  /** `totalPoints / (gamesPlayed || 1)`. */
  function Average(total: real, games: nat): real {
    total / (if games == 0 then 1 else games) as real
  }

  /** The statistics the hook computes from a list of counted slots. */
  function StatsOf(slots: seq<Slot>): map<string, Stat> {
    map pid | pid in Pids(slots) :: Stat(Total(slots, pid), Games(slots, pid), Average(Total(slots, pid), Games(slots, pid)))
  }

  lemma {:induction false} GamesAppend(a: seq<Slot>, b: seq<Slot>, pid: string)
    ensures Games(a + b, pid) == Games(a, pid) + Games(b, pid)
    ensures Total(a + b, pid) == Total(a, pid) + Total(b, pid)
  {
    if b == [] {
      assert a + b == a;
    } else {
      var b', x := b[..|b| - 1], b[|b| - 1];
      assert a + b == (a + b') + [x];
      assert (a + b)[..|a + b| - 1] == a + b';
      GamesAppend(a, b', pid);
    }
  }

  /** A player occurs in the slots exactly when it started at least once. */
  lemma {:induction false} GamesPositive(slots: seq<Slot>, pid: string)
    ensures Games(slots, pid) > 0 <==> pid in Pids(slots)
    ensures Games(slots, pid) == 0 ==> Total(slots, pid) == 0.0
  {
    if slots != [] {
      var init := slots[..|slots| - 1];
      GamesPositive(init, pid);
      assert slots == init + [slots[|slots| - 1]];
      PidsSnoc(init, slots[|slots| - 1]);
    }
  }

  /**
   * The entries: exactly the players that occupy a counted slot, each with at
   * least one game, and an average that is the plain quotient (the `|| 1`
   * guard never applies).
   */
  lemma StatsEntries(slots: seq<Slot>, pid: string)
    ensures pid in StatsOf(slots) <==> exists i :: 0 <= i < |slots| && slots[i].pid == pid
    ensures pid in StatsOf(slots) ==>
              StatsOf(slots)[pid].gamesPlayed >= 1 &&
              StatsOf(slots)[pid].avgPoints == StatsOf(slots)[pid].totalPoints / StatsOf(slots)[pid].gamesPlayed as real
  {
    GamesPositive(slots, pid);
  }

  /** The number of slots of `slots` whose player is in `pids`. */
  function CountIn(slots: seq<Slot>, pids: set<string>): nat {
    if slots == [] then 0
    else CountIn(slots[..|slots| - 1], pids) + (if slots[|slots| - 1].pid in pids then 1 else 0)
  }

  /** The games of the players in `pids`, added up. */
  ghost function SumGames(slots: seq<Slot>, pids: set<string>): nat
    decreases pids
  {
    if pids == {} then 0
    else
      var pid :| pid in pids;
      Games(slots, pid) + SumGames(slots, pids - {pid})
  }

  lemma {:induction false} CountInSplit(slots: seq<Slot>, pids: set<string>, pid: string)
    requires pid in pids
    ensures CountIn(slots, pids) == Games(slots, pid) + CountIn(slots, pids - {pid})
  {
    if slots != [] {
      CountInSplit(slots[..|slots| - 1], pids, pid);
    }
  }

  lemma {:induction false} SumGamesIsCount(slots: seq<Slot>, pids: set<string>)
    ensures SumGames(slots, pids) == CountIn(slots, pids)
    decreases pids
  {
    if pids == {} {
      CountNone(slots);
    } else {
      var pid :| pid in pids && SumGames(slots, pids) == Games(slots, pid) + SumGames(slots, pids - {pid});
      SumGamesIsCount(slots, pids - {pid});
      CountInSplit(slots, pids, pid);
    }
  }

  lemma {:induction false} CountNone(slots: seq<Slot>)
    ensures CountIn(slots, {}) == 0
  {
    if slots != [] {
      CountNone(slots[..|slots| - 1]);
    }
  }

  lemma {:induction false} CountAll(slots: seq<Slot>)
    ensures CountIn(slots, Pids(slots)) == |slots|
  {
    if slots != [] {
      var init := slots[..|slots| - 1];
      CountAll(init);
      assert forall i :: 0 <= i < |init| ==> init[i] == slots[i];
      CountMonotone(init, Pids(init), Pids(slots));
    }
  }

  lemma {:induction false} CountMonotone(slots: seq<Slot>, p: set<string>, q: set<string>)
    requires p <= q
    requires forall i :: 0 <= i < |slots| ==> slots[i].pid in p
    ensures CountIn(slots, q) == CountIn(slots, p)
  {
    if slots != [] {
      CountMonotone(slots[..|slots| - 1], p, q);
    }
  }

  /** The games of all entries add up to the number of counted slots. */
  lemma GamesAddUp(slots: seq<Slot>)
    ensures SumGames(slots, StatsOf(slots).Keys) == |slots|
  {
    assert StatsOf(slots).Keys == Pids(slots);
    SumGamesIsCount(slots, Pids(slots));
    CountAll(slots);
  }

  /** The statistics do not depend on the order in which the weeks are visited. */
  lemma WeekOrderIrrelevant(a: Season, b: Season)
    requires StartersPresent(a) && StartersPresent(b)
    ensures StartersPresent(a + b) && StartersPresent(b + a)
    ensures StatsOf(SeasonSlots(a + b)) == StatsOf(SeasonSlots(b + a))
  {
    SeasonSlotsAppend(a, b);
    SeasonSlotsAppend(b, a);
    var x, y := SeasonSlots(a), SeasonSlots(b);
    forall pid ensures Games(x + y, pid) == Games(y + x, pid) && Total(x + y, pid) == Total(y + x, pid) {
      GamesAppend(x, y, pid);
      GamesAppend(y, x, pid);
    }
    assert Pids(x + y) == Pids(y + x) by {
      forall pid ensures pid in Pids(x + y) <==> pid in Pids(y + x) {
        GamesPositive(x + y, pid);
        GamesPositive(y + x, pid);
      }
    }
  }

  /** `stats` holds the running totals of `slots`, with every average still 0. */
  ghost predicate Tallies(stats: map<string, Stat>, slots: seq<Slot>) {
    (forall pid :: pid in stats <==> pid in Pids(slots)) &&
    forall pid :: pid in stats ==> stats[pid] == Stat(Total(slots, pid), Games(slots, pid), 0.0)
  }

  lemma TalliesStep(stats: map<string, Stat>, slots: seq<Slot>, x: Slot, stats': map<string, Stat>)
    requires Tallies(stats, slots)
    requires x.pid in stats' && stats'[x.pid] ==
               (if x.pid in stats then Stat(stats[x.pid].totalPoints + x.points, stats[x.pid].gamesPlayed + 1, 0.0)
                else Stat(0.0 + x.points, 0 + 1, 0.0))
    requires forall pid :: pid != x.pid ==> (pid in stats' <==> pid in stats)
    requires forall pid :: pid != x.pid && pid in stats ==> stats'[pid] == stats[pid]
    ensures Tallies(stats', slots + [x])
  {
    var s := slots + [x];
    assert s[..|s| - 1] == slots;
    PidsSnoc(slots, x);
    GamesPositive(slots, x.pid);
    forall pid | pid in stats'
      ensures stats'[pid] == Stat(Total(s, pid), Games(s, pid), 0.0)
    {
      if pid != x.pid {
        assert pid in stats;
      }
    }
  }

  /** One matchup's `starters.forEach`: each counted slot bumps its player's line. */
  method AddMatchup(stats: map<string, Stat>, m: Matchup, ghost prefix: seq<Slot>) returns (stats': map<string, Stat>)
    requires m.starters.Some? && Tallies(stats, prefix)
    ensures Tallies(stats', prefix + AllMatchupSlots(m))
  {
    stats' := stats;
    var starters := m.starters.value;
    assert prefix + MatchupSlots(m, 0) == prefix;
    for j := 0 to |starters|
      invariant Tallies(stats', prefix + MatchupSlots(m, j))
    {
      var pid := starters[j];
      MatchupSlotsStep(prefix, m, j);
      if EmptySlot(pid) {
        continue;
      }
      var points := PointsAt(m, j);
      ghost var before := stats';
      if pid !in stats' {
        stats' := stats'[pid := Stat(0.0, 0, 0.0)];
      }
      stats' := stats'[pid := Stat(stats'[pid].totalPoints + points, stats'[pid].gamesPlayed + 1, stats'[pid].avgPoints)];
      TalliesStep(before, prefix + MatchupSlots(m, j), Slot(m.rosterId, pid, points), stats');
    }
  }

  /** One more starter adds its slot unless the slot is empty. */
  lemma MatchupSlotsStep(prefix: seq<Slot>, m: Matchup, j: nat)
    requires m.starters.Some? && j < |m.starters.value|
    ensures var pid := m.starters.value[j];
            prefix + MatchupSlots(m, j + 1) ==
            if EmptySlot(pid) then prefix + MatchupSlots(m, j) else (prefix + MatchupSlots(m, j)) + [Slot(m.rosterId, pid, PointsAt(m, j))]
  {
    if EmptySlot(m.starters.value[j]) {
      assert MatchupSlots(m, j + 1) == MatchupSlots(m, j) + [];
    }
  }

  /** One week's `weekMatchups.forEach`. */
  method AddWeek(stats: map<string, Stat>, ms: seq<Matchup>, ghost prefix: seq<Slot>) returns (stats': map<string, Stat>)
    requires WeekStartersPresent(ms) && Tallies(stats, prefix)
    ensures Tallies(stats', prefix + WeekSlots(ms))
  {
    stats' := stats;
    assert ms[..0] == [];
    assert prefix + WeekSlots(ms[..0]) == prefix;
    for k := 0 to |ms|
      invariant Tallies(stats', prefix + WeekSlots(ms[..k]))
    {
      WeekSlotsStep(ms, k);
      stats' := AddMatchup(stats', ms[k], prefix + WeekSlots(ms[..k]));
      assert prefix + WeekSlots(ms[..k]) + AllMatchupSlots(ms[k]) == prefix + WeekSlots(ms[..k + 1]);
    }
    assert ms[..|ms|] == ms;
  }

  /** The second pass over `Object.keys(stats)`: fills in every average. */
  method FillAverages(stats: map<string, Stat>, ghost slots: seq<Slot>) returns (stats': map<string, Stat>)
    requires Tallies(stats, slots)
    ensures stats' == StatsOf(slots)
  {
    stats' := stats;
    var todo := stats.Keys;
    while todo != {}
      invariant todo <= stats'.Keys
      invariant forall pid :: pid in stats' <==> pid in Pids(slots)
      invariant forall pid :: pid in stats' ==>
                  stats'[pid].totalPoints == Total(slots, pid) && stats'[pid].gamesPlayed == Games(slots, pid) &&
                  stats'[pid].avgPoints == (if pid in todo then 0.0 else Average(Total(slots, pid), Games(slots, pid)))
      decreases todo
    {
      var pid :| pid in todo;
      var st := stats'[pid];
      stats' := stats'[pid := Stat(st.totalPoints, st.gamesPlayed, Average(st.totalPoints, st.gamesPlayed))];
      todo := todo - {pid};
    }
  }

  /**
   * `usePlayerStats`: nothing for a missing season; otherwise every counted
   * starter slot of every fetched week adds its points and one game to its
   * player's line, and a second pass fills in the averages.
   */
  method ComputePlayerStats(season: Option<Season>) returns (stats: map<string, Stat>)
    requires season.Some? ==> StartersPresent(season.value)
    ensures season.None? ==> stats == map[]
    ensures season.Some? ==> stats == StatsOf(SeasonSlots(season.value))
  {
    stats := map[];
    if season.None? {
      return;
    }
    var weeks := season.value;
    for w := 0 to |weeks|
      invariant Tallies(stats, SeasonSlots(weeks[..w]))
    {
      SeasonSlotsStep(weeks, w);
      if weeks[w].Some? {
        stats := AddWeek(stats, weeks[w].value, SeasonSlots(weeks[..w]));
      } else {
        assert SeasonSlots(weeks[..w]) + [] == SeasonSlots(weeks[..w]);
      }
    }
    assert weeks[..|weeks|] == weeks;
    stats := FillAverages(stats, SeasonSlots(weeks));
  }
}
