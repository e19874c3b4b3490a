/**
 * The trade finder: ranks every wide receiver and running back with season
 * statistics by average points, calls a roster's position a surplus when more
 * than three of its players are in that position's top 24 and a deficit when
 * it starts a player outside that position's top 40, and pairs each surplus
 * with every other analysed roster that has the matching deficit.
 */
module TradeFinder {
  import opened Wrappers
  import opened Entities
  import opened Sorting
  import opened PlayerStats

  /** The two positions the finder trades in. */
  datatype Position = WR | RB

  /** The catalog spelling of a position. */
  function Code(p: Position): string {
    match p
    case WR => "WR"
    case RB => "RB"
  }

  /** `{ ...p, ...stat }`, reduced to the two fields the finder reads. */
  datatype Ranked = Ranked(playerId: string, avgPoints: real)

  /** `Object.keys(stats)`: every key once. */
  predicate Enumerates(keys: seq<string>, stats: map<string, Stat>) {
    (forall i :: 0 <= i < |keys| ==> keys[i] in stats) &&
    (forall pid :: pid in stats ==> pid in keys) &&
    (forall i, j :: 0 <= i < j < |keys| ==> keys[i] != keys[j])
  }

  /** The ranking entry of a key when its catalog player plays `pos`. */
  function Candidate(pid: string, stats: map<string, Stat>, players: Catalog, pos: Position): Option<Ranked>
    requires pid in stats
  {
    if pid in players && players[pid].position == Code(pos) then Some(Ranked(players[pid].playerId, stats[pid].avgPoints))
    else None
  }

  /** `allWRs` / `allRBs` before sorting: the keys whose catalog player plays `pos`, in key order. */
  function Pool(keys: seq<string>, stats: map<string, Stat>, players: Catalog, pos: Position): seq<Ranked>
    requires forall i :: 0 <= i < |keys| ==> keys[i] in stats
  {
    if keys == [] then []
    else
      var c := Candidate(keys[|keys| - 1], stats, players, pos);
      Pool(keys[..|keys| - 1], stats, players, pos) + (if c.Some? then [c.value] else [])
  }

  /** `(a, b) => b.avgPoints - a.avgPoints`: descending average. */
  function ByAvgDesc(r: Ranked): real {
    -r.avgPoints
  }

  /** The pool of `pos` after `sort`, best average first. */
  function Ranking(keys: seq<string>, stats: map<string, Stat>, players: Catalog, pos: Position): seq<Ranked>
    requires forall i :: 0 <= i < |keys| ==> keys[i] in stats
  {
    Sort(Pool(keys, stats, players, pos), ByAvgDesc)
  }

  /** `new Set(ranked.slice(0, n).map(p => p.player_id))`. */
  function Top(ranked: seq<Ranked>, n: nat): set<string> {
    set i | 0 <= i < |ranked| && i < n :: ranked[i].playerId
  }

  /** The four ranking sets. */
  datatype Tops = Tops(top24WR: set<string>, top24RB: set<string>, top40WR: set<string>, top40RB: set<string>)

  function TopsOf(keys: seq<string>, stats: map<string, Stat>, players: Catalog): Tops
    requires forall i :: 0 <= i < |keys| ==> keys[i] in stats
  {
    var wrs, rbs := Ranking(keys, stats, players, WR), Ranking(keys, stats, players, RB);
    Tops(Top(wrs, 24), Top(rbs, 24), Top(wrs, 40), Top(rbs, 40))
  }

  function Top24(tops: Tops, pos: Position): set<string> {
    if pos == WR then tops.top24WR else tops.top24RB
  }

  function Top40(tops: Tops, pos: Position): set<string> {
    if pos == WR then tops.top40WR else tops.top40RB
  }

  // ---------------------------------------------------------------------
  // Per-roster analysis

  /** The number of entries of `pids` in `top`, counting repeats. */
  function TopCount(pids: seq<string>, top: set<string>): nat {
    if pids == [] then 0
    else TopCount(pids[..|pids| - 1], top) + (if pids[|pids| - 1] in top then 1 else 0)
  }

  /** A starter whose catalog player plays `pos` but is not in that position's top 40. */
  predicate WeakStarter(pid: string, players: Catalog, pos: Position, top40: set<string>) {
    pid in players && players[pid].position == Code(pos) && pid !in top40
  }

  /** `weakWR` / `weakRB` after the starter loop. */
  predicate Weak(starters: seq<string>, players: Catalog, pos: Position, top40: set<string>) {
    exists k :: 0 <= k < |starters| && WeakStarter(starters[k], players, pos, top40)
  }

  /** `analysis` entry: a roster with the positions it can spare and the positions it needs. */
  datatype Team = Team(rosterId: nat, ownerId: Option<string>, surplus: seq<Position>, deficit: seq<Position>)

  function SurplusOf(r: Roster, tops: Tops): seq<Position> {
    (if TopCount(r.players, tops.top24WR) > 3 then [WR] else []) +
    (if TopCount(r.players, tops.top24RB) > 3 then [RB] else [])
  }

  function DeficitOf(r: Roster, players: Catalog, tops: Tops): seq<Position> {
    (if Weak(r.starters, players, WR, tops.top40WR) then [WR] else []) +
    (if Weak(r.starters, players, RB, tops.top40RB) then [RB] else [])
  }

  /** The analysis entry of a roster, when it has a surplus or a deficit. */
  function TeamOf(r: Roster, players: Catalog, tops: Tops): Option<Team> {
    var surplus, deficit := SurplusOf(r, tops), DeficitOf(r, players, tops);
    if |surplus| > 0 || |deficit| > 0 then Some(Team(r.rosterId, r.ownerId, surplus, deficit)) else None
  }

  /** The `rosters.map` callback of `analysis`, before filtering. */
  function Teams(rosters: seq<Roster>, players: Catalog, tops: Tops): seq<Option<Team>> {
    seq(|rosters|, i requires 0 <= i < |rosters| => TeamOf(rosters[i], players, tops))
  }

  /** `analysis`: the entries of the rosters, in roster order. */
  function Analysis(rosters: seq<Roster>, players: Catalog, tops: Tops): seq<Team> {
    Present(Teams(rosters, players, tops))
  }

  // ---------------------------------------------------------------------
  // Matchmaking

  datatype Trade = Trade(from: Team, to: Team, position: Position)

  /** The innermost loop: every other team of `bs` that needs `pos` receives it from `a`. */
  function Partners(a: Team, pos: Position, bs: seq<Team>): seq<Trade> {
    if bs == [] then []
    else
      var b := bs[|bs| - 1];
      Partners(a, pos, bs[..|bs| - 1]) + (if a.rosterId != b.rosterId && pos in b.deficit then [Trade(a, b, pos)] else [])
  }

  /** The middle loop: every surplus position of `a`, in order. */
  function Offers(a: Team, ps: seq<Position>, analysis: seq<Team>): seq<Trade> {
    if ps == [] then []
    else Offers(a, ps[..|ps| - 1], analysis) + Partners(a, ps[|ps| - 1], analysis)
  }

  /** The outer loop: every team of `teams`, in order. */
  function Trades(teams: seq<Team>, analysis: seq<Team>): seq<Trade> {
    if teams == [] then []
    else Trades(teams[..|teams| - 1], analysis) + Offers(teams[|teams| - 1], teams[|teams| - 1].surplus, analysis)
  }

  /**
   * The `opportunities` memo: nothing while loading, without rosters or
   * players, or before any player has statistics; otherwise the trades.
   */
  function Opportunities(loading: bool, rosters: Option<seq<Roster>>, players: Option<Catalog>,
                         stats: map<string, Stat>, keys: seq<string>): seq<Trade>
    requires Enumerates(keys, stats)
  {
    if loading || rosters.None? || players.None? || |stats| == 0 then []
    else
      var analysis := Analysis(rosters.value, players.value, TopsOf(keys, stats, players.value));
      Trades(analysis, analysis)
  }

  // ---------------------------------------------------------------------
  // Properties

  /** The pool of `pos` holds exactly the keys whose catalog player plays `pos`, with their averages. */
  lemma {:induction false} PoolMembers(keys: seq<string>, stats: map<string, Stat>, players: Catalog, pos: Position, r: Ranked)
    requires forall i :: 0 <= i < |keys| ==> keys[i] in stats
    ensures r in Pool(keys, stats, players, pos) <==>
            exists i :: 0 <= i < |keys| && Candidate(keys[i], stats, players, pos) == Some(r)
  {
    if keys != [] {
      var init := keys[..|keys| - 1];
      PoolMembers(init, stats, players, pos, r);
      if r in Pool(keys, stats, players, pos) && r !in Pool(init, stats, players, pos) {
        assert Candidate(keys[|keys| - 1], stats, players, pos) == Some(r);
      }
      if exists i :: 0 <= i < |keys| && Candidate(keys[i], stats, players, pos) == Some(r) {
        var i :| 0 <= i < |keys| && Candidate(keys[i], stats, players, pos) == Some(r);
        if i < |init| {
          assert Candidate(init[i], stats, players, pos) == Some(r);
        }
      }
    }
  }

  /** The ranking is the pool, reordered from the best average to the worst. */
  lemma RankingOrder(keys: seq<string>, stats: map<string, Stat>, players: Catalog, pos: Position)
    requires forall i :: 0 <= i < |keys| ==> keys[i] in stats
    ensures var ranked := Ranking(keys, stats, players, pos);
            multiset(ranked) == multiset(Pool(keys, stats, players, pos)) &&
            forall i, j :: 0 <= i < j < |ranked| ==> ranked[i].avgPoints >= ranked[j].avgPoints
  {
    var ranked := Ranking(keys, stats, players, pos);
    forall i, j | 0 <= i < j < |ranked| ensures ranked[i].avgPoints >= ranked[j].avgPoints {
      assert ByAvgDesc(ranked[i]) <= ByAvgDesc(ranked[j]);
    }
  }

  /** The first `n` of a ranking are among the first `m` whenever `n <= m`: in particular top 24 is within top 40. */
  lemma TopWithin(ranked: seq<Ranked>, n: nat, m: nat)
    requires n <= m
    ensures Top(ranked, n) <= Top(ranked, m)
  {
  }

  lemma Top24WithinTop40(keys: seq<string>, stats: map<string, Stat>, players: Catalog)
    requires forall i :: 0 <= i < |keys| ==> keys[i] in stats
    ensures var tops := TopsOf(keys, stats, players);
            tops.top24WR <= tops.top40WR && tops.top24RB <= tops.top40RB
  {
    TopWithin(Ranking(keys, stats, players, WR), 24, 40);
    TopWithin(Ranking(keys, stats, players, RB), 24, 40);
  }

  /** The surplus lists WR when more than three players are in the WR top 24, then RB likewise. */
  lemma SurplusMeaning(r: Roster, tops: Tops, pos: Position)
    ensures pos in SurplusOf(r, tops) <==> TopCount(r.players, Top24(tops, pos)) > 3
    ensures |SurplusOf(r, tops)| == 2 ==> SurplusOf(r, tops) == [WR, RB]
  {
  }

  /** The deficit lists a position when some starter plays it from outside its top 40. */
  lemma DeficitMeaning(r: Roster, players: Catalog, tops: Tops, pos: Position)
    ensures pos in DeficitOf(r, players, tops) <==>
            exists k :: 0 <= k < |r.starters| && WeakStarter(r.starters[k], players, pos, Top40(tops, pos))
    ensures |DeficitOf(r, players, tops)| == 2 ==> DeficitOf(r, players, tops) == [WR, RB]
  {
  }

  /** A roster is analysed exactly when it has a surplus or a deficit, and then with its own id and owner. */
  lemma AnalysisMembers(rosters: seq<Roster>, players: Catalog, tops: Tops, t: Team)
    ensures t in Analysis(rosters, players, tops) <==>
            exists i :: 0 <= i < |rosters| && TeamOf(rosters[i], players, tops) == Some(t)
  {
    var xs := Teams(rosters, players, tops);
    PresentMembers(xs, t);
    if Some(t) in xs {
      var i :| 0 <= i < |xs| && xs[i] == Some(t);
      assert TeamOf(rosters[i], players, tops) == Some(t);
    }
    if exists i :: 0 <= i < |rosters| && TeamOf(rosters[i], players, tops) == Some(t) {
      var i :| 0 <= i < |rosters| && TeamOf(rosters[i], players, tops) == Some(t);
      assert xs[i] == Some(t);
    }
  }

  /** Every analysed team can spare or needs some position. */
  lemma AnalysedTeamsTrade(rosters: seq<Roster>, players: Catalog, tops: Tops, t: Team)
    requires t in Analysis(rosters, players, tops)
    ensures |t.surplus| > 0 || |t.deficit| > 0
  {
    AnalysisMembers(rosters, players, tops, t);
  }

  lemma {:induction false} PartnersMembers(a: Team, pos: Position, bs: seq<Team>, t: Trade)
    ensures t in Partners(a, pos, bs) <==>
            t.from == a && t.position == pos && t.to in bs && a.rosterId != t.to.rosterId && pos in t.to.deficit
  {
    if bs != [] {
      var init := bs[..|bs| - 1];
      PartnersMembers(a, pos, init, t);
      assert bs == init + [bs[|bs| - 1]];
    }
  }

  lemma {:induction false} OffersMembers(a: Team, ps: seq<Position>, analysis: seq<Team>, t: Trade)
    ensures t in Offers(a, ps, analysis) <==>
            t.from == a && t.position in ps && t.to in analysis &&
            a.rosterId != t.to.rosterId && t.position in t.to.deficit
  {
    if ps != [] {
      var init := ps[..|ps| - 1];
      OffersMembers(a, init, analysis, t);
      PartnersMembers(a, ps[|ps| - 1], analysis, t);
      assert ps == init + [ps[|ps| - 1]];
    }
  }

  lemma {:induction false} TradesMembers(teams: seq<Team>, analysis: seq<Team>, t: Trade)
    ensures t in Trades(teams, analysis) <==>
            t.from in teams && t.to in analysis && t.from.rosterId != t.to.rosterId &&
            t.position in t.from.surplus && t.position in t.to.deficit
  {
    if teams != [] {
      var init, last := teams[..|teams| - 1], teams[|teams| - 1];
      TradesMembers(init, analysis, t);
      OffersMembers(last, last.surplus, analysis, t);
      assert teams == init + [last];
    }
  }

  /**
   * The trades are exactly the triples (A, pos, B) of analysed teams with
   * different roster ids, `pos` a surplus of A and a deficit of B.
   */
  lemma TradesExactly(analysis: seq<Team>, t: Trade)
    ensures t in Trades(analysis, analysis) <==>
            t.from in analysis && t.to in analysis && t.from.rosterId != t.to.rosterId &&
            t.position in t.from.surplus && t.position in t.to.deficit
  {
    TradesMembers(analysis, analysis, t);
  }

  // ---------------------------------------------------------------------
  // The computation

  /** The `Object.keys(playerStats).forEach` that fills `allWRs` and `allRBs`, then the two sorts. */
  method RankPlayers(keys: seq<string>, stats: map<string, Stat>, players: Catalog) returns (allWRs: seq<Ranked>, allRBs: seq<Ranked>)
    requires forall i :: 0 <= i < |keys| ==> keys[i] in stats
    ensures allWRs == Ranking(keys, stats, players, WR)
    ensures allRBs == Ranking(keys, stats, players, RB)
  {
    allWRs, allRBs := [], [];
    for k := 0 to |keys|
      invariant allWRs == Pool(keys[..k], stats, players, WR)
      invariant allRBs == Pool(keys[..k], stats, players, RB)
    {
      var pid := keys[k];
      assert keys[..k + 1][..k] == keys[..k];
      if pid in players {
        var p := players[pid];
        var stat := stats[pid];
        if p.position == "WR" {
          allWRs := allWRs + [Ranked(p.playerId, stat.avgPoints)];
        }
        if p.position == "RB" {
          allRBs := allRBs + [Ranked(p.playerId, stat.avgPoints)];
        }
      }
    }
    assert keys[..|keys|] == keys;
    allWRs := Sort(allWRs, ByAvgDesc);
    allRBs := Sort(allRBs, ByAvgDesc);
  }

  /** `myWRs.length` / `myRBs.length`: the roster's players in a top-24 set. */
  method CountTop(pids: seq<string>, top: set<string>) returns (n: nat)
    ensures n == TopCount(pids, top)
  {
    n := 0;
    for k := 0 to |pids|
      invariant n == TopCount(pids[..k], top)
    {
      assert pids[..k + 1][..k] == pids[..k];
      if pids[k] in top {
        n := n + 1;
      }
    }
    assert pids[..|pids|] == pids;
  }

  /** The `starters.forEach` that raises `weakWR` and `weakRB`. */
  method FindWeak(starters: seq<string>, players: Catalog, top40WR: set<string>, top40RB: set<string>)
    returns (weakWR: bool, weakRB: bool)
    ensures weakWR == Weak(starters, players, WR, top40WR)
    ensures weakRB == Weak(starters, players, RB, top40RB)
  {
    weakWR, weakRB := false, false;
    for k := 0 to |starters|
      invariant weakWR <==> exists i :: 0 <= i < k && WeakStarter(starters[i], players, WR, top40WR)
      invariant weakRB <==> exists i :: 0 <= i < k && WeakStarter(starters[i], players, RB, top40RB)
    {
      var pid := starters[k];
      if pid in players {
        var p := players[pid];
        if p.position == "WR" && pid !in top40WR {
          weakWR := true;
        }
        if p.position == "RB" && pid !in top40RB {
          weakRB := true;
        }
      }
    }
  }

  /** One iteration of the second `rosters.forEach`. */
  method AnalyseRoster(r: Roster, players: Catalog, tops: Tops) returns (entry: Option<Team>)
    ensures entry == TeamOf(r, players, tops)
  {
    var myWRs := CountTop(r.players, tops.top24WR);
    var myRBs := CountTop(r.players, tops.top24RB);
    var surplus: seq<Position> := [];
    if myWRs > 3 {
      surplus := surplus + [WR];
    }
    if myRBs > 3 {
      surplus := surplus + [RB];
    }
    var weakWR, weakRB := FindWeak(r.starters, players, tops.top40WR, tops.top40RB);
    var deficit: seq<Position> := [];
    if weakWR {
      deficit := deficit + [WR];
    }
    if weakRB {
      deficit := deficit + [RB];
    }
    assert surplus == SurplusOf(r, tops);
    assert deficit == DeficitOf(r, players, tops);
    if |surplus| > 0 || |deficit| > 0 {
      entry := Some(Team(r.rosterId, r.ownerId, surplus, deficit));
    } else {
      entry := None;
    }
  }

  /** The second `rosters.forEach`, filling `analysis`. */
  method Analyse(rosters: seq<Roster>, players: Catalog, tops: Tops) returns (analysis: seq<Team>)
    ensures analysis == Analysis(rosters, players, tops)
  {
    analysis := [];
    for k := 0 to |rosters|
      invariant analysis == Analysis(rosters[..k], players, tops)
    {
      var entry := AnalyseRoster(rosters[k], players, tops);
      assert Teams(rosters[..k + 1], players, tops) == Teams(rosters[..k], players, tops) + [entry];
      PresentAppend(Teams(rosters[..k], players, tops), [entry]);
      assert Present([entry]) == if entry.Some? then [entry.value] else [];
      if entry.Some? {
        analysis := analysis + [entry.value];
      }
    }
    assert rosters[..|rosters|] == rosters;
  }

  /** `analysis.forEach(teamB => ...)` for one team and position. */
  method PairUp(a: Team, pos: Position, analysis: seq<Team>) returns (trades: seq<Trade>)
    ensures trades == Partners(a, pos, analysis)
  {
    trades := [];
    for k := 0 to |analysis|
      invariant trades == Partners(a, pos, analysis[..k])
    {
      assert analysis[..k + 1][..k] == analysis[..k];
      var b := analysis[k];
      if a.rosterId == b.rosterId {
        continue;
      }
      if pos in b.deficit {
        trades := trades + [Trade(a, b, pos)];
      }
    }
    assert analysis[..|analysis|] == analysis;
  }

  /** `teamA.surplus.forEach(pos => ...)` for one team. */
  method Offer(a: Team, analysis: seq<Team>) returns (trades: seq<Trade>)
    ensures trades == Offers(a, a.surplus, analysis)
  {
    trades := [];
    for s := 0 to |a.surplus|
      invariant trades == Offers(a, a.surplus[..s], analysis)
    {
      assert a.surplus[..s + 1][..s] == a.surplus[..s];
      var more := PairUp(a, a.surplus[s], analysis);
      trades := trades + more;
    }
    assert a.surplus[..|a.surplus|] == a.surplus;
  }

  /** The matchmaking loops over `analysis`, each surplus, and `analysis` again. */
  method Matchmake(analysis: seq<Team>) returns (trades: seq<Trade>)
    ensures trades == Trades(analysis, analysis)
  {
    trades := [];
    for k := 0 to |analysis|
      invariant trades == Trades(analysis[..k], analysis)
    {
      assert analysis[..k + 1][..k] == analysis[..k];
      var more := Offer(analysis[k], analysis);
      trades := trades + more;
    }
    assert analysis[..|analysis|] == analysis;
  }

  /** The `opportunities` memo. */
  method FindOpportunities(loading: bool, rosters: Option<seq<Roster>>, players: Option<Catalog>,
                           stats: map<string, Stat>, keys: seq<string>) returns (trades: seq<Trade>)
    requires Enumerates(keys, stats)
    ensures trades == Opportunities(loading, rosters, players, stats, keys)
  {
    if loading || rosters.None? || players.None? || |stats| == 0 {
      return [];
    }
    var allWRs, allRBs := RankPlayers(keys, stats, players.value);
    var tops := Tops(Top(allWRs, 24), Top(allRBs, 24), Top(allWRs, 40), Top(allRBs, 40));
    var analysis := Analyse(rosters.value, players.value, tops);
    trades := Matchmake(analysis);
  }
}
