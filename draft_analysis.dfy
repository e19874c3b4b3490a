/**
 * The draft scatter plot: every drafted player with season statistics and a
 * catalog entry becomes a point (pick number, season points), flagged a steal
 * when picked late and scoring high, and a bust when picked early and scoring
 * low.
 */
module DraftAnalysis {
  import opened Wrappers
  import opened Entities
  import opened PlayerStats

  /** A draft pick: `player_id` and `pick_no`. */
  datatype Pick = Pick(playerId: string, pickNo: int)

  /** A point of the plot. */
  datatype DraftPoint = DraftPoint(pickNo: int, points: real, name: string, position: string, isSteal: bool, isBust: bool)

  /** Picked after 100 and more than 100 points. */
  predicate Steal(pickNo: int, points: real) {
    pickNo > 100 && points > 100.0
  }

  /** Picked before 50 and fewer than 50 points. */
  predicate Bust(pickNo: int, points: real) {
    pickNo < 50 && points < 50.0
  }

  /** The `picks.map` callback: a point, or nothing without statistics or a catalog player. */
  function PointOf(pick: Pick, stats: map<string, Stat>, players: Catalog): Option<DraftPoint> {
    var pid := pick.playerId;
    if pid !in stats || pid !in players then None
    else
      var stat, player := stats[pid], players[pid];
      Some(DraftPoint(pick.pickNo, stat.totalPoints, player.firstName + " " + player.lastName, player.position,
                      Steal(pick.pickNo, stat.totalPoints), Bust(pick.pickNo, stat.totalPoints)))
  }

  /** The points of `picks`, before filtering. */
  function Points(picks: seq<Pick>, stats: map<string, Stat>, players: Catalog): seq<Option<DraftPoint>> {
    seq(|picks|, i requires 0 <= i < |picks| => PointOf(picks[i], stats, players))
  }

  /** The `data` memo: nothing without picks or a catalog. */
  function Data(picks: Option<seq<Pick>>, stats: map<string, Stat>, players: Option<Catalog>): seq<DraftPoint> {
    if picks.None? || players.None? then []
    else Present(Points(picks.value, stats, players.value))
  }

  // ---------------------------------------------------------------------
  // Properties

  /** A point is never both a steal and a bust. */
  lemma NeverBoth(pickNo: int, points: real)
    ensures !(Steal(pickNo, points) && Bust(pickNo, points))
  {
  }

  lemma PointsAppend(a: seq<Pick>, b: seq<Pick>, stats: map<string, Stat>, players: Catalog)
    ensures Points(a + b, stats, players) == Points(a, stats, players) + Points(b, stats, players)
  {
  }

  /**
   * The plot keeps pick order: the points of a draft split in two are the
   * points of the first part followed by those of the second.
   */
  lemma DataInPickOrder(a: seq<Pick>, b: seq<Pick>, stats: map<string, Stat>, players: Catalog)
    ensures Data(Some(a + b), stats, Some(players)) == Data(Some(a), stats, Some(players)) + Data(Some(b), stats, Some(players))
  {
    PointsAppend(a, b, stats, players);
    PresentAppend(Points(a, stats, players), Points(b, stats, players));
  }

  /**
   * Every point comes from a pick whose player has statistics and a catalog
   * entry; it copies the pick number, the season points and the catalog's
   * "first last" name and position, and its flags are
   * the steal and bust thresholds, never both. There are at most as many points
   * as picks.
   */
  lemma DataMeaning(picks: Option<seq<Pick>>, stats: map<string, Stat>, players: Option<Catalog>, d: DraftPoint)
    ensures picks.None? || players.None? ==> Data(picks, stats, players) == []
    ensures picks.Some? ==> |Data(picks, stats, players)| <= |picks.value|
    ensures d in Data(picks, stats, players) ==>
              picks.Some? && players.Some? &&
              exists i :: 0 <= i < |picks.value| &&
                var pid := picks.value[i].playerId;
                pid in stats && pid in players.value &&
                d.pickNo == picks.value[i].pickNo && d.points == stats[pid].totalPoints &&
                d.name == players.value[pid].firstName + " " + players.value[pid].lastName &&
                d.position == players.value[pid].position &&
                (d.isSteal <==> d.pickNo > 100 && d.points > 100.0) &&
                (d.isBust <==> d.pickNo < 50 && d.points < 50.0) &&
                !(d.isSteal && d.isBust)
  {
    if picks.Some? && players.Some? {
      var xs := Points(picks.value, stats, players.value);
      PresentMembers(xs, d);
      if d in Data(picks, stats, players) {
        var i :| 0 <= i < |xs| && xs[i] == Some(d);
        NeverBoth(d.pickNo, d.points);
      }
    }
  }

  /** Every pick whose player has statistics and a catalog entry is plotted. */
  lemma DataComplete(picks: seq<Pick>, stats: map<string, Stat>, players: Catalog, i: nat)
    requires i < |picks| && picks[i].playerId in stats && picks[i].playerId in players
    ensures PointOf(picks[i], stats, players).Some?
    ensures PointOf(picks[i], stats, players).value in Data(Some(picks), stats, Some(players))
  {
    var xs := Points(picks, stats, players);
    PresentMembers(xs, PointOf(picks[i], stats, players).value);
    assert xs[i] == PointOf(picks[i], stats, players);
  }
}
