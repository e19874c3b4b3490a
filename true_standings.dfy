/**
 * True standings: every roster's record against the whole league. Each week
 * every team is compared with every other team of that week; the all-play
 * record gives an expected number of wins and a luck index.
 */
module TrueStandings {
  import opened Wrappers
  import opened Text
  import opened Entities
  import opened NflData
  import opened Sorting

  /** A week's score line: `{ roster_id, points }`. */
  datatype Score = Score(rosterId: nat, points: real)

  /** All-play counters: `allPlayWins`, `allPlayLosses`, `allPlayTies`. */
  datatype AllPlay = AllPlay(wins: nat, losses: nat, ties: nat)

  const NoGames := AllPlay(0, 0, 0)

  function Plus(x: AllPlay, y: AllPlay): AllPlay {
    AllPlay(x.wins + y.wins, x.losses + y.losses, x.ties + y.ties)
  }

  /** The number of comparisons recorded in `x`. */
  function Comparisons(x: AllPlay): nat {
    x.wins + x.losses + x.ties
  }

  /** A roster's entry: its id, owner, settings record and all-play counters. */
  datatype Entry = Entry(
    rosterId: nat,
    ownerId: Option<string>,
    wins: nat,
    losses: nat,
    ties: nat,
    fpts: real,
    allPlay: AllPlay)

  /** The entry a roster starts with: its settings, points with the decimals, no comparisons. */
  function Initial(r: Roster): Entry {
    Entry(r.rosterId, r.ownerId, r.wins, r.losses, r.ties, r.fpts as real + r.fptsDecimal as real / 100.0, NoGames)
  }

  // ---------------------------------------------------------------------
  // Specification of the tallies

  /** The week's scores, in matchup order. */
  function Scores(ms: seq<Matchup>): (r: seq<Score>)
    ensures |r| == |ms|
    ensures forall i :: 0 <= i < |ms| ==> r[i] == Score(ms[i].rosterId, ms[i].points)
  {
    seq(|ms|, i requires 0 <= i < |ms| => Score(ms[i].rosterId, ms[i].points))
  }

  /** The week's scores, highest first. */
  function Ranked(ms: seq<Matchup>): seq<Score> {
    Sort(Scores(ms), (s: Score) => -s.points)
  }

  /** How a comparison between two teams of different rosters ends for the first one. */
  datatype Result = Win | Loss | Tie

  /** The result for team `a` against team `b`, by points. */
  function ResultOf(a: Score, b: Score): Result {
    if a.points > b.points then Win else if a.points < b.points then Loss else Tie
  }

  /** The number of teams of `bs`, from another roster than `a`'s, against which `a` gets result `r`. */
  function Count(a: Score, bs: seq<Score>, r: Result): nat {
    if bs == [] then 0
    else
      var b := bs[|bs| - 1];
      Count(a, bs[..|bs| - 1], r) + (if b.rosterId != a.rosterId && ResultOf(a, b) == r then 1 else 0)
  }

  /** Team `a` compared with each of `bs`. */
  function Versus(a: Score, bs: seq<Score>): AllPlay {
    AllPlay(Count(a, bs, Win), Count(a, bs, Loss), Count(a, bs, Tie))
  }

  /** The results `r` roster `rid` collects when each of `teams` is compared with each of `all`. */
  function WeekCount(teams: seq<Score>, all: seq<Score>, rid: nat, r: Result): nat {
    if teams == [] then 0
    else
      var a := teams[|teams| - 1];
      WeekCount(teams[..|teams| - 1], all, rid, r) + (if a.rosterId == rid then Count(a, all, r) else 0)
  }

  /** What roster `rid` gains when each of `teams` is compared with each of `all`. */
  function WeekAllPlay(teams: seq<Score>, all: seq<Score>, rid: nat): AllPlay {
    AllPlay(WeekCount(teams, all, rid, Win), WeekCount(teams, all, rid, Loss), WeekCount(teams, all, rid, Tie))
  }

  /** The results `r` roster `rid` collects over the fetched weeks of a season, each week ranked first. */
  function SeasonCount(season: Season, rid: nat, r: Result): nat {
    if season == [] then 0
    else
      var last := season[|season| - 1];
      SeasonCount(season[..|season| - 1], rid, r) +
      (if last.Some? then WeekCount(Ranked(last.value), Ranked(last.value), rid, r) else 0)
  }

  /** What roster `rid` gains over the fetched weeks of a season. */
  function SeasonAllPlay(season: Season, rid: nat): AllPlay {
    AllPlay(SeasonCount(season, rid, Win), SeasonCount(season, rid, Loss), SeasonCount(season, rid, Tie))
  }

  /** `teamStats` after initialisation: one entry per roster id, a later roster replacing an earlier one. */
  function InitialStats(rosters: seq<Roster>): (stats: map<nat, Entry>)
    ensures stats.Keys == set i | 0 <= i < |rosters| :: rosters[i].rosterId
    ensures forall rid :: rid in stats ==> stats[rid].allPlay == NoGames && stats[rid].rosterId == rid
  {
    if rosters == [] then map[]
    else
      var r := rosters[|rosters| - 1];
      InitialStats(rosters[..|rosters| - 1])[r.rosterId := Initial(r)]
  }

  /** `teamStats` after the all-play pass. */
  function Tallied(rosters: seq<Roster>, season: Season): (stats: map<nat, Entry>)
    ensures stats.Keys == InitialStats(rosters).Keys
    ensures forall rid :: rid in stats ==> stats[rid].rosterId == rid && stats[rid].allPlay == SeasonAllPlay(season, rid)
  {
    var init := InitialStats(rosters);
    map rid | rid in init :: init[rid].(allPlay := SeasonAllPlay(season, rid))
  }

  // ---------------------------------------------------------------------
  // The table

  /** `(w + t * 0.5) / (w + l + t || 1)`. */
  function WinPct(w: nat, l: nat, t: nat): real {
    (w as real + t as real * 0.5) / (if w + l + t == 0 then 1 else w + l + t) as real
  }

  /** Actual wins minus the wins the all-play percentage predicts over the games played. */
  function Luck(e: Entry): real {
    e.wins as real - WinPct(e.allPlay.wins, e.allPlay.losses, e.allPlay.ties) * (e.wins + e.losses + e.ties) as real
  }

  /** `W-L`, with `-T` appended when there are ties. */
  function Record(w: nat, l: nat, t: nat): string {
    NatToString(w) + "-" + NatToString(l) + (if t > 0 then "-" + NatToString(t) else "")
  }

  /** A row of the table. `luck` is the exact value that the table prints to two decimals. */
  datatype Row = Row(entry: Entry, name: string, avatar: Option<string>, actualRecord: string, allPlayRecord: string, luck: real)

  /** `userById.get(stat.ownerId)`. */
  function OwnerFor(ownerId: Option<string>, userById: map<string, User>): Option<User> {
    if ownerId.Some? && ownerId.value in userById then Some(userById[ownerId.value]) else None
  }

  function RowOf(e: Entry, userById: map<string, User>): Row {
    var owner := OwnerFor(e.ownerId, userById);
    Row(e, DisplayTeamName(owner), AvatarUrl(if owner.Some? then owner.value.avatar else "", "thumbs"),
        Record(e.wins, e.losses, e.ties), Record(e.allPlay.wins, e.allPlay.losses, e.allPlay.ties), Luck(e))
  }

  function AllPlayWinsKey(r: Row): real {
    -(r.entry.allPlay.wins as real)
  }

  /** `m` is the least element of `ks`. */
  predicate IsLeast(m: nat, ks: set<nat>) {
    m in ks && forall k :: k in ks ==> m <= k
  }

  lemma {:induction false} MinExists(ks: set<nat>)
    requires ks != {}
    ensures exists m :: IsLeast(m, ks)
    decreases ks
  {
    var x :| x in ks;
    var rest := ks - {x};
    if rest == {} {
      assert IsLeast(x, ks) by {
        forall k | k in ks ensures x <= k {
          assert k !in rest;
        }
      }
    } else {
      MinExists(rest);
      var m :| IsLeast(m, rest);
      var least := if x < m then x else m;
      assert IsLeast(least, ks) by {
        forall k | k in ks ensures least <= k {
          if k != x {
            assert k in rest;
          }
        }
      }
    }
  }

  /** The least element of a non-empty set. */
  function Min(ks: set<nat>): (m: nat)
    requires ks != {}
    ensures IsLeast(m, ks)
  {
    MinExists(ks);
    var m :| IsLeast(m, ks);
    m
  }

  /** `Object.values(teamStats)`: integer keys enumerate in ascending order. */
  function OrderedEntries(stats: map<nat, Entry>): (es: seq<Entry>)
    ensures |es| == |stats|
    decreases stats.Keys
  {
    if stats.Keys == {} then []
    else
      var m := Min(stats.Keys);
      var rest := stats - {m};
      assert rest.Keys == stats.Keys - {m};
      [stats[m]] + OrderedEntries(rest)
  }

  /** Every entry of `stats` sits under its own roster id. */
  ghost predicate Keyed(stats: map<nat, Entry>) {
    forall rid :: rid in stats ==> stats[rid].rosterId == rid
  }

  /** Every entry of `es` is the entry of `stats` under its roster id. */
  ghost predicate FromStats(es: seq<Entry>, stats: map<nat, Entry>) {
    forall i :: 0 <= i < |es| ==> es[i].rosterId in stats && stats[es[i].rosterId] == es[i]
  }

  /** Every roster id of `stats` has an entry in `es`. */
  ghost predicate Covers(es: seq<Entry>, stats: map<nat, Entry>) {
    forall rid :: rid in stats ==> exists i :: 0 <= i < |es| && es[i].rosterId == rid
  }

  /** Roster ids strictly increase along `es`. */
  ghost predicate Increasing(es: seq<Entry>) {
    forall i, j :: 0 <= i < j < |es| ==> es[i].rosterId < es[j].rosterId
  }

  lemma {:induction false} OrderedFromStats(stats: map<nat, Entry>)
    requires Keyed(stats)
    ensures FromStats(OrderedEntries(stats), stats)
    decreases stats.Keys
  {
    if stats.Keys != {} {
      var m := Min(stats.Keys);
      var rest := stats - {m};
      assert rest.Keys == stats.Keys - {m};
      OrderedFromStats(rest);
      var es, tail := OrderedEntries(stats), OrderedEntries(rest);
      assert es == [stats[m]] + tail;
      forall i | 0 <= i < |es| ensures es[i].rosterId in stats && stats[es[i].rosterId] == es[i] {
        if i > 0 {
          assert es[i] == tail[i - 1];
        }
      }
    }
  }

  lemma {:induction false} OrderedIncreasing(stats: map<nat, Entry>)
    requires Keyed(stats)
    ensures Increasing(OrderedEntries(stats))
    decreases stats.Keys
  {
    if stats.Keys != {} {
      var m := Min(stats.Keys);
      var rest := stats - {m};
      assert rest.Keys == stats.Keys - {m};
      OrderedIncreasing(rest);
      OrderedFromStats(rest);
      var es, tail := OrderedEntries(stats), OrderedEntries(rest);
      assert es == [stats[m]] + tail;
      forall i, j | 0 <= i < j < |es| ensures es[i].rosterId < es[j].rosterId {
        assert es[j] == tail[j - 1];
        if i > 0 {
          assert es[i] == tail[i - 1];
        } else {
          assert es[j].rosterId in rest;
        }
      }
    }
  }

  lemma {:induction false} OrderedCovers(stats: map<nat, Entry>)
    requires Keyed(stats)
    ensures Covers(OrderedEntries(stats), stats)
    decreases stats.Keys
  {
    if stats.Keys != {} {
      var m := Min(stats.Keys);
      var rest := stats - {m};
      assert rest.Keys == stats.Keys - {m};
      OrderedCovers(rest);
      var es, tail := OrderedEntries(stats), OrderedEntries(rest);
      assert es == [stats[m]] + tail;
      forall rid | rid in stats ensures exists i :: 0 <= i < |es| && es[i].rosterId == rid {
        if rid != m {
          assert rid in rest;
          var k :| 0 <= k < |tail| && tail[k].rosterId == rid;
          assert es[k + 1] == tail[k];
        } else {
          assert es[0].rosterId == rid;
        }
      }
    }
  }

  /** The entries turned into rows, before the sort. */
  function Unsorted(stats: map<nat, Entry>, userById: map<string, User>): (r: seq<Row>)
    ensures |r| == |stats|
    ensures forall i :: 0 <= i < |r| ==> r[i].entry == OrderedEntries(stats)[i]
  {
    var es := OrderedEntries(stats);
    seq(|es|, i requires 0 <= i < |es| => RowOf(es[i], userById))
  }

  /** The table: nothing while loading or without rosters or matchups; else by all-play wins, most first. */
  function Standings(loading: bool, rosters: Option<seq<Roster>>, season: Option<Season>, users: Option<seq<User>>): seq<Row> {
    if loading || rosters.None? || season.None? then []
    else Sort(Unsorted(Tallied(rosters.value, season.value), UserIndex(users.GetOr([]))), AllPlayWinsKey)
  }

  // ---------------------------------------------------------------------
  // Properties of the tallies

  /** The number of entries of `bs` that belong to a roster other than `rid`. */
  function Others(rid: nat, bs: seq<Score>): nat {
    if bs == [] then 0
    else Others(rid, bs[..|bs| - 1]) + (if bs[|bs| - 1].rosterId != rid then 1 else 0)
  }

  /** The number of entries of `teams` that belong to roster `rid`. */
  function Entries(rid: nat, teams: seq<Score>): nat {
    if teams == [] then 0
    else Entries(rid, teams[..|teams| - 1]) + (if teams[|teams| - 1].rosterId == rid then 1 else 0)
  }

  /**
   * Each comparison with another roster increments exactly one of the three
   * counters, and a comparison with the same roster none.
   */
  lemma {:induction false} VersusCounts(a: Score, bs: seq<Score>)
    ensures Comparisons(Versus(a, bs)) == Others(a.rosterId, bs)
  {
    if bs != [] {
      VersusCounts(a, bs[..|bs| - 1]);
    }
  }

  /** A roster gains, in a week, one comparison per entry of another roster for each of its own entries. */
  lemma {:induction false} WeekComparisons(teams: seq<Score>, all: seq<Score>, rid: nat)
    ensures Comparisons(WeekAllPlay(teams, all, rid)) == Entries(rid, teams) * Others(rid, all)
  {
    if teams == [] {
      assert Entries(rid, teams) == 0;
      MulZero(Others(rid, all));
    } else {
      var a := teams[|teams| - 1];
      var init := teams[..|teams| - 1];
      WeekComparisons(init, all, rid);
      var n, o := Entries(rid, init), Others(rid, all);
      var c := if a.rosterId == rid then Comparisons(Versus(a, all)) else 0;
      assert Comparisons(WeekAllPlay(teams, all, rid)) == Comparisons(WeekAllPlay(init, all, rid)) + c;
      if a.rosterId == rid {
        VersusCounts(a, all);
        assert Entries(rid, teams) == n + 1;
        calc {
          Comparisons(WeekAllPlay(teams, all, rid));
          n * o + o;
          { MulStep(n, o); }
          (n + 1) * o;
        }
      } else {
        assert Entries(rid, teams) == n;
        assert Comparisons(WeekAllPlay(teams, all, rid)) == n * o;
      }
    }
  }

  lemma MulZero(o: nat)
    ensures 0 * o == 0
  {
  }

  lemma MulStep(n: nat, o: nat)
    ensures (n + 1) * o == n * o + o
  {
  }

  /** The same comparison seen from the other team. */
  function Flip(r: Result): Result {
    match r
    case Win => Loss
    case Loss => Win
    case Tie => Tie
  }

  /** The number of teams of `ys`, from another roster than `x`'s, that get result `r` against `x`. */
  function Against(ys: seq<Score>, x: Score, r: Result): nat {
    if ys == [] then 0
    else
      var y := ys[|ys| - 1];
      Against(ys[..|ys| - 1], x, r) + (if y.rosterId != x.rosterId && ResultOf(y, x) == r then 1 else 0)
  }

  /** The results `r` all of `xs` collect against all of `ys`. */
  function League(xs: seq<Score>, ys: seq<Score>, r: Result): nat {
    if xs == [] then 0
    else League(xs[..|xs| - 1], ys, r) + Count(xs[|xs| - 1], ys, r)
  }

  lemma {:induction false} CountMirror(x: Score, ys: seq<Score>, r: Result)
    ensures Count(x, ys, r) == Against(ys, x, Flip(r))
  {
    if ys != [] {
      CountMirror(x, ys[..|ys| - 1], r);
    }
  }

  lemma {:induction false} LeagueExtend(xs: seq<Score>, ys: seq<Score>, y: Score, r: Result)
    ensures League(xs, ys + [y], r) == League(xs, ys, r) + Against(xs, y, r)
  {
    if xs != [] {
      var x := xs[|xs| - 1];
      var ys' := ys + [y];
      assert ys'[..|ys'| - 1] == ys && ys'[|ys'| - 1] == y;
      LeagueExtend(xs[..|xs| - 1], ys, y, r);
      assert Count(x, ys', r) == Count(x, ys, r) + (if y.rosterId != x.rosterId && ResultOf(x, y) == r then 1 else 0);
    }
  }

  lemma {:induction false} LeagueNone(xs: seq<Score>, r: Result)
    ensures League(xs, [], r) == 0
  {
    if xs != [] {
      LeagueNone(xs[..|xs| - 1], r);
    }
  }

  /** Every win of one team over another is a loss of that other team, and ties come in pairs. */
  lemma {:induction false} LeagueMirror(xs: seq<Score>, ys: seq<Score>, r: Result)
    ensures League(xs, ys, r) == League(ys, xs, Flip(r))
  {
    if xs == [] {
      LeagueNone(ys, Flip(r));
    } else {
      var init, x := xs[..|xs| - 1], xs[|xs| - 1];
      assert init + [x] == xs;
      LeagueMirror(init, ys, r);
      LeagueExtend(ys, init, x, Flip(r));
      CountMirror(x, ys, r);
      calc {
        League(xs, ys, r);
        League(init, ys, r) + Count(x, ys, r);
        League(ys, init, Flip(r)) + Against(ys, x, Flip(r));
        League(ys, init + [x], Flip(r));
      }
    }
  }

  /** Across a week, all-play wins and all-play losses balance. */
  lemma WeekBalanced(ms: seq<Matchup>)
    ensures League(Ranked(ms), Ranked(ms), Win) == League(Ranked(ms), Ranked(ms), Loss)
  {
    LeagueMirror(Ranked(ms), Ranked(ms), Win);
  }

  /** `t` splits around its element at `k`, whose removal takes one copy out of the multiset. */
  lemma RemoveAt(t: seq<Score>, k: nat)
    requires k < |t|
    ensures t == t[..k] + ([t[k]] + t[k + 1..])
    ensures multiset(t[..k] + t[k + 1..]) == multiset(t) - multiset{t[k]}
  {
    assert t == t[..k] + [t[k]] + t[k + 1..];
  }

  lemma {:induction false} CountAppend(a: Score, s: seq<Score>, t: seq<Score>, r: Result)
    ensures Count(a, s + t, r) == Count(a, s, r) + Count(a, t, r)
  {
    if t == [] {
      assert s + t == s;
    } else {
      var st := s + t;
      assert st[..|st| - 1] == s + t[..|t| - 1];
      CountAppend(a, s, t[..|t| - 1], r);
    }
  }

  lemma {:induction false} CountPermutation(a: Score, s: seq<Score>, t: seq<Score>, r: Result)
    requires multiset(s) == multiset(t)
    ensures Count(a, s, r) == Count(a, t, r)
  {
    if s != [] {
      var init, x := s[..|s| - 1], s[|s| - 1];
      assert s == init + [x];
      assert x in multiset(t);
      var k :| 0 <= k < |t| && t[k] == x;
      RemoveAt(t, k);
      var left, right := t[..k], t[k + 1..];
      assert multiset(init) == multiset(s) - multiset{x};
      CountPermutation(a, init, left + right, r);
      CountAppend(a, left, right, r);
      CountAppend(a, left, [x] + right, r);
      CountAppend(a, [x], right, r);
      CountAppend(a, init, [x], r);
      calc {
        Count(a, t, r);
        Count(a, left, r) + (Count(a, [x], r) + Count(a, right, r));
        Count(a, left + right, r) + Count(a, [x], r);
        Count(a, init, r) + Count(a, [x], r);
        Count(a, init + [x], r);
      }
    }
  }

  lemma {:induction false} WeekCountAppend(s: seq<Score>, t: seq<Score>, all: seq<Score>, rid: nat, r: Result)
    ensures WeekCount(s + t, all, rid, r) == WeekCount(s, all, rid, r) + WeekCount(t, all, rid, r)
  {
    if t == [] {
      assert s + t == s;
    } else {
      var st := s + t;
      assert st[..|st| - 1] == s + t[..|t| - 1];
      WeekCountAppend(s, t[..|t| - 1], all, rid, r);
    }
  }

  lemma {:induction false} WeekCountPermutation(s: seq<Score>, t: seq<Score>, all: seq<Score>, rid: nat, r: Result)
    requires multiset(s) == multiset(t)
    ensures WeekCount(s, all, rid, r) == WeekCount(t, all, rid, r)
  {
    if s != [] {
      var init, x := s[..|s| - 1], s[|s| - 1];
      assert s == init + [x];
      assert x in multiset(t);
      var k :| 0 <= k < |t| && t[k] == x;
      RemoveAt(t, k);
      var left, right := t[..k], t[k + 1..];
      assert multiset(init) == multiset(s) - multiset{x};
      WeekCountPermutation(init, left + right, all, rid, r);
      WeekCountAppend(left, right, all, rid, r);
      WeekCountAppend(left, [x] + right, all, rid, r);
      WeekCountAppend([x], right, all, rid, r);
      WeekCountAppend(init, [x], all, rid, r);
      calc {
        WeekCount(t, all, rid, r);
        WeekCount(left, all, rid, r) + (WeekCount([x], all, rid, r) + WeekCount(right, all, rid, r));
        WeekCount(left + right, all, rid, r) + WeekCount([x], all, rid, r);
        WeekCount(init, all, rid, r) + WeekCount([x], all, rid, r);
        WeekCount(init + [x], all, rid, r);
      }
    }
  }

  lemma {:induction false} WeekCountOpponents(teams: seq<Score>, all: seq<Score>, all': seq<Score>, rid: nat, r: Result)
    requires multiset(all) == multiset(all')
    ensures WeekCount(teams, all, rid, r) == WeekCount(teams, all', rid, r)
  {
    if teams != [] {
      WeekCountOpponents(teams[..|teams| - 1], all, all', rid, r);
      CountPermutation(teams[|teams| - 1], all, all', r);
    }
  }

  /** Sorting the week's scores first does not change anybody's tallies. */
  lemma PreSortIrrelevant(ms: seq<Matchup>, rid: nat)
    ensures WeekAllPlay(Ranked(ms), Ranked(ms), rid) == WeekAllPlay(Scores(ms), Scores(ms), rid)
  {
    forall r: Result ensures WeekCount(Ranked(ms), Ranked(ms), rid, r) == WeekCount(Scores(ms), Scores(ms), rid, r) {
      WeekCountPermutation(Ranked(ms), Scores(ms), Ranked(ms), rid, r);
      WeekCountOpponents(Scores(ms), Ranked(ms), Scores(ms), rid, r);
    }
  }

  /** The all-play percentage lies in [0, 1] and is 0 without comparisons. */
  lemma WinPctRange(w: nat, l: nat, t: nat)
    ensures 0.0 <= WinPct(w, l, t) <= 1.0
    ensures w + l + t == 0 ==> WinPct(w, l, t) == 0.0
  {
    var x := w as real + t as real * 0.5;
    var d := (if w + l + t == 0 then 1 else w + l + t) as real;
    assert WinPct(w, l, t) == x / d;
    UnitQuotient(x, d);
  }

  /** A share of a positive whole lies in [0, 1]. */
  lemma UnitQuotient(x: real, d: real)
    requires 0.0 <= x <= d && d > 0.0
    ensures 0.0 <= x / d <= 1.0
  {
    var q := x / d;
    assert q * d == x;
    assert (1.0 - q) * d == d - x;
  }

  /** Luck lies between the actual wins minus the games played and the actual wins. */
  lemma LuckRange(e: Entry)
    ensures e.wins as real - (e.wins + e.losses + e.ties) as real <= Luck(e) <= e.wins as real
  {
    var p := WinPct(e.allPlay.wins, e.allPlay.losses, e.allPlay.ties);
    var g := (e.wins + e.losses + e.ties) as real;
    WinPctRange(e.allPlay.wins, e.allPlay.losses, e.allPlay.ties);
    var q := ScaledShare(p, g);
    assert Luck(e) == e.wins as real - q;
  }

  /** A share in [0, 1] of a non-negative whole lies between 0 and the whole. */
  lemma ScaledShare(p: real, g: real) returns (q: real)
    requires 0.0 <= p <= 1.0 && 0.0 <= g
    ensures q == p * g && 0.0 <= q <= g
  {
    q := p * g;
    NonNegProduct(p, g);
    NonNegProduct(1.0 - p, g);
    assert g - p * g == (1.0 - p) * g;
  }

  lemma NonNegProduct(a: real, b: real)
    requires 0.0 <= a && 0.0 <= b
    ensures 0.0 <= a * b
  {
  }

  /** Each roster id's initial entry comes from the last roster carrying that id. */
  lemma {:induction false} InitialFromLast(rosters: seq<Roster>)
    ensures InitialStats(rosters).Keys == RosterIndex(rosters).Keys
    ensures forall rid :: rid in InitialStats(rosters) ==> InitialStats(rosters)[rid] == Initial(RosterIndex(rosters)[rid])
  {
    if rosters != [] {
      InitialFromLast(rosters[..|rosters| - 1]);
    }
  }

  /** Every row carries the entry of `stats` under its roster id. */
  ghost predicate RowsFrom(rows: seq<Row>, stats: map<nat, Entry>) {
    forall i :: 0 <= i < |rows| ==> rows[i].entry.rosterId in stats && stats[rows[i].entry.rosterId] == rows[i].entry
  }

  /** Every roster id of `stats` has a row. */
  ghost predicate RowsCover(rows: seq<Row>, stats: map<nat, Entry>) {
    forall rid :: rid in stats ==> exists i :: 0 <= i < |rows| && rows[i].entry.rosterId == rid
  }

  /** The unsorted table has one row per entry of `stats` and no other. */
  lemma UnsortedRows(stats: map<nat, Entry>, userById: map<string, User>)
    requires Keyed(stats)
    ensures RowsFrom(Unsorted(stats, userById), stats) && RowsCover(Unsorted(stats, userById), stats)
  {
    var u := Unsorted(stats, userById);
    var es := OrderedEntries(stats);
    OrderedFromStats(stats);
    OrderedCovers(stats);
    assert forall i :: 0 <= i < |u| ==> u[i].entry == es[i];
    forall rid | rid in stats ensures exists i :: 0 <= i < |u| && u[i].entry.rosterId == rid {
      var k :| 0 <= k < |es| && es[k].rosterId == rid;
      assert u[k].entry == es[k];
    }
  }

  /** Reordering rows keeps the rows drawn from `stats` and all of them. */
  lemma PermutedRows(rows: seq<Row>, t: seq<Row>, stats: map<nat, Entry>)
    requires multiset(t) == multiset(rows)
    requires RowsFrom(rows, stats) && RowsCover(rows, stats)
    ensures RowsFrom(t, stats) && RowsCover(t, stats)
  {
    forall i | 0 <= i < |t|
      ensures t[i].entry.rosterId in stats && stats[t[i].entry.rosterId] == t[i].entry
    {
      assert t[i] in multiset(rows);
      var k :| 0 <= k < |rows| && rows[k] == t[i];
    }
    forall rid | rid in stats ensures exists i :: 0 <= i < |t| && t[i].entry.rosterId == rid {
      var k :| 0 <= k < |rows| && rows[k].entry.rosterId == rid;
      assert rows[k] in multiset(t);
    }
  }

  /** Every row shows its entry with the owner's name and avatar, both records and the luck index. */
  ghost predicate RowsShown(rows: seq<Row>, userById: map<string, User>) {
    forall i :: 0 <= i < |rows| ==> rows[i] == RowOf(rows[i].entry, userById)
  }

  lemma UnsortedShown(stats: map<nat, Entry>, userById: map<string, User>)
    ensures RowsShown(Unsorted(stats, userById), userById)
  {
    var u := Unsorted(stats, userById);
    forall i | 0 <= i < |u| ensures u[i] == RowOf(u[i].entry, userById) {
      assert u[i] == RowOf(OrderedEntries(stats)[i], userById);
    }
  }

  /** Rows drawn from the tallied entries carry their season all-play records. */
  lemma SeasonRows(rows: seq<Row>, stats: map<nat, Entry>, season: Season)
    requires RowsFrom(rows, stats)
    requires forall rid :: rid in stats ==> stats[rid].allPlay == SeasonAllPlay(season, rid)
    ensures forall i :: 0 <= i < |rows| ==> rows[i].entry.allPlay == SeasonAllPlay(season, rows[i].entry.rosterId)
  {
  }

  /**
   * What a shown row holds, field by field: the owner's display name and
   * thumbnail avatar, `W-L[-T]` for both records, and the luck index, which
   * lies between actual wins minus games played and actual wins.
   */
  lemma ShownFields(rows: seq<Row>, userById: map<string, User>)
    requires RowsShown(rows, userById)
    ensures forall i :: 0 <= i < |rows| ==>
              var e := rows[i].entry;
              var owner := OwnerFor(e.ownerId, userById);
              var ap := e.allPlay;
              rows[i].luck == Luck(e) &&
              rows[i].name == DisplayTeamName(owner) &&
              rows[i].avatar == AvatarUrl(if owner.Some? then owner.value.avatar else "", "thumbs") &&
              rows[i].actualRecord == Record(e.wins, e.losses, e.ties) &&
              rows[i].allPlayRecord == Record(ap.wins, ap.losses, ap.ties)
    ensures forall i :: 0 <= i < |rows| ==>
              var e := rows[i].entry;
              e.wins as real - (e.wins + e.losses + e.ties) as real <= rows[i].luck <= e.wins as real
  {
    forall i | 0 <= i < |rows|
      ensures rows[i].entry.wins as real - (rows[i].entry.wins + rows[i].entry.losses + rows[i].entry.ties) as real
                <= rows[i].luck <= rows[i].entry.wins as real
    {
      assert rows[i] == RowOf(rows[i].entry, userById);
      LuckRange(rows[i].entry);
    }
  }

  /** Reordering rows keeps what each row shows. */
  lemma PermutedShown(rows: seq<Row>, t: seq<Row>, userById: map<string, User>)
    requires multiset(t) == multiset(rows)
    requires RowsShown(rows, userById)
    ensures RowsShown(t, userById)
  {
    forall i | 0 <= i < |t| ensures t[i] == RowOf(t[i].entry, userById) {
      assert t[i] in multiset(rows);
      var k :| 0 <= k < |rows| && rows[k] == t[i];
    }
  }

  /** All-play wins never increase down the rows. */
  ghost predicate ByWins(rows: seq<Row>) {
    forall i, j :: 0 <= i < j < |rows| ==> rows[i].entry.allPlay.wins >= rows[j].entry.allPlay.wins
  }

  /** The sorted rows run from the most all-play wins to the fewest. */
  lemma TableByWins(rows: seq<Row>)
    ensures ByWins(Sort(rows, AllPlayWinsKey))
  {
    var t := Sort(rows, AllPlayWinsKey);
    forall i, j | 0 <= i < j < |t| ensures t[i].entry.allPlay.wins >= t[j].entry.allPlay.wins {
      assert AllPlayWinsKey(t[i]) <= AllPlayWinsKey(t[j]);
    }
  }

  /** Sorting the rows of `stats` gives one row per entry, most all-play wins first. */
  lemma TableOf(stats: map<nat, Entry>, userById: map<string, User>)
    requires Keyed(stats)
    ensures var t := Sort(Unsorted(stats, userById), AllPlayWinsKey);
            |t| == |stats| && RowsFrom(t, stats) && RowsCover(t, stats) && ByWins(t) && RowsShown(t, userById)
  {
    var u := Unsorted(stats, userById);
    UnsortedRows(stats, userById);
    PermutedRows(u, Sort(u, AllPlayWinsKey), stats);
    UnsortedShown(stats, userById);
    PermutedShown(u, Sort(u, AllPlayWinsKey), userById);
    TableByWins(u);
  }

  /**
   * The table: empty while loading or without rosters or matchups; otherwise
   * one row per roster id, each carrying that roster's all-play record over the
   * season, ordered by all-play wins, most first. Each row is its entry as
   * `RowOf` shows it: the owner's display name and thumbnail avatar, both
   * records and the luck index (field by field in `ShownFields`).
   */
  lemma StandingsTable(loading: bool, rosters: Option<seq<Roster>>, season: Option<Season>, users: Option<seq<User>>)
    ensures loading || rosters.None? || season.None? ==> Standings(loading, rosters, season, users) == []
    ensures !loading && rosters.Some? && season.Some? ==>
              var t := Standings(loading, rosters, season, users);
              var stats := Tallied(rosters.value, season.value);
              |t| == |stats| && RowsFrom(t, stats) && RowsCover(t, stats) && ByWins(t) &&
              forall i :: 0 <= i < |t| ==> t[i].entry.allPlay == SeasonAllPlay(season.value, t[i].entry.rosterId)
    ensures !loading && rosters.Some? && season.Some? ==>
              RowsShown(Standings(loading, rosters, season, users), UserIndex(users.GetOr([])))
  {
    if !loading && rosters.Some? && season.Some? {
      var stats := Tallied(rosters.value, season.value);
      var userById := UserIndex(users.GetOr([]));
      var t := Standings(loading, rosters, season, users);
      assert t == Sort(Unsorted(stats, userById), AllPlayWinsKey);
      TableOf(stats, userById);
      SeasonRows(t, stats, season.value);
    }
  }

  /** Rows with equal all-play wins keep the order of `Object.values`: ascending roster id. */
  lemma StandingsTies(stats: map<nat, Entry>, userById: map<string, User>, v: real)
    requires Keyed(stats)
    ensures var u := Unsorted(stats, userById);
            WithKey(Sort(u, AllPlayWinsKey), AllPlayWinsKey, v) == WithKey(u, AllPlayWinsKey, v) &&
            forall i, j :: 0 <= i < j < |u| ==> u[i].entry.rosterId < u[j].entry.rosterId
  {
    var u := Unsorted(stats, userById);
    SortStable(u, AllPlayWinsKey, v);
    OrderedIncreasing(stats);
  }

  // ---------------------------------------------------------------------
  // The computation

  /** Every roster gets its initial entry; a later roster with the same id replaces the earlier one. */
  method Initialise(rosters: seq<Roster>) returns (stats: map<nat, Entry>)
    ensures stats == InitialStats(rosters)
  {
    stats := map[];
    for i := 0 to |rosters|
      invariant stats == InitialStats(rosters[..i])
    {
      assert rosters[..i + 1][..i] == rosters[..i];
      stats := stats[rosters[i].rosterId := Initial(rosters[i])];
    }
    assert rosters[..|rosters|] == rosters;
  }

  /** `scores.forEach(teamB => ...)` for one `teamA`. */
  method CompareWithAll(stats: map<nat, Entry>, a: Score, scores: seq<Score>) returns (stats': map<nat, Entry>)
    requires a.rosterId in stats
    ensures stats' == stats[a.rosterId := stats[a.rosterId].(allPlay := Plus(stats[a.rosterId].allPlay, Versus(a, scores)))]
  {
    var tally := stats[a.rosterId].allPlay;
    for j := 0 to |scores|
      invariant tally == Plus(stats[a.rosterId].allPlay, Versus(a, scores[..j]))
    {
      ghost var prefix := scores[..j + 1];
      assert prefix[..j] == scores[..j] && prefix[j] == scores[j];
      var b := scores[j];
      if a.rosterId == b.rosterId {
        continue;
      }
      if a.points > b.points {
        tally := tally.(wins := tally.wins + 1);
      } else if a.points < b.points {
        tally := tally.(losses := tally.losses + 1);
      } else {
        tally := tally.(ties := tally.ties + 1);
      }
    }
    assert scores[..|scores|] == scores;
    stats' := stats[a.rosterId := stats[a.rosterId].(allPlay := tally)];
  }

  /** One week: every known team is compared with every team of the week. */
  method CompareWeek(stats: map<nat, Entry>, scores: seq<Score>) returns (stats': map<nat, Entry>)
    ensures stats'.Keys == stats.Keys
    ensures forall rid :: rid in stats ==>
              stats'[rid] == stats[rid].(allPlay := Plus(stats[rid].allPlay, WeekAllPlay(scores, scores, rid)))
  {
    stats' := stats;
    for i := 0 to |scores|
      invariant stats'.Keys == stats.Keys
      invariant forall rid :: rid in stats ==>
                  stats'[rid] == stats[rid].(allPlay := Plus(stats[rid].allPlay, WeekAllPlay(scores[..i], scores, rid)))
    {
      assert scores[..i + 1] == scores[..i] + [scores[i]];
      WeekAllPlaySnoc(scores[..i], scores[i], scores);
      var a := scores[i];
      if a.rosterId !in stats' {
        continue;
      }
      stats' := CompareWithAll(stats', a, scores);
    }
    assert scores[..|scores|] == scores;
  }

  /** Taking one more team of the week adds its comparisons to its own roster and to no other. */
  lemma WeekAllPlaySnoc(teams: seq<Score>, a: Score, all: seq<Score>)
    ensures forall rid :: WeekAllPlay(teams + [a], all, rid) ==
              if a.rosterId == rid then Plus(WeekAllPlay(teams, all, rid), Versus(a, all)) else WeekAllPlay(teams, all, rid)
  {
    assert (teams + [a])[..|teams|] == teams;
  }

  /** `stats` is `init` with the all-play counters of `season`. */
  ghost predicate TalliedOver(stats: map<nat, Entry>, init: map<nat, Entry>, season: Season) {
    stats.Keys == init.Keys &&
    forall rid :: rid in stats ==> stats[rid] == init[rid].(allPlay := SeasonAllPlay(season, rid))
  }

  lemma TalliedStep(before: map<nat, Entry>, after: map<nat, Entry>, init: map<nat, Entry>, season: Season, week: Week)
    requires TalliedOver(before, init, season)
    requires week.None? ==> after == before
    requires week.Some? ==> after.Keys == before.Keys
    requires week.Some? ==> forall rid :: rid in before ==>
               after[rid] == before[rid].(allPlay := Plus(before[rid].allPlay, WeekAllPlay(Ranked(week.value), Ranked(week.value), rid)))
    ensures TalliedOver(after, init, season + [week])
  {
    assert (season + [week])[..|season|] == season;
  }

  lemma TalliedAll(stats: map<nat, Entry>, rosters: seq<Roster>, season: Season)
    requires TalliedOver(stats, InitialStats(rosters), season)
    ensures stats == Tallied(rosters, season)
  {
  }

  /** The all-play pass over the fetched weeks, skipping weeks that came back empty. */
  method CompareSeason(rosters: seq<Roster>, weeks: Season) returns (stats: map<nat, Entry>)
    ensures stats == Tallied(rosters, weeks)
  {
    stats := Initialise(rosters);
    ghost var init := stats;
    assert TalliedOver(stats, init, weeks[..0]);
    for w := 0 to |weeks|
      invariant TalliedOver(stats, init, weeks[..w])
    {
      ghost var before := stats;
      if weeks[w].Some? {
        var scores := Ranked(weeks[w].value);
        stats := CompareWeek(stats, scores);
      }
      TalliedStep(before, stats, init, weeks[..w], weeks[w]);
      assert weeks[..w] + [weeks[w]] == weeks[..w + 1];
    }
    assert weeks[..|weeks|] == weeks;
    TalliedAll(stats, rosters, weeks);
  }

  /** The `stats` memo of the true standings table. */
  method ComputeStandings(loading: bool, rosters: Option<seq<Roster>>, season: Option<Season>, users: Option<seq<User>>)
    returns (rows: seq<Row>)
    ensures rows == Standings(loading, rosters, season, users)
  {
    if loading || rosters.None? || season.None? {
      return [];
    }
    var userById := UserIndex(users.GetOr([]));
    var stats := CompareSeason(rosters.value, season.value);
    rows := Sort(Unsorted(stats, userById), AllPlayWinsKey);
  }
}
