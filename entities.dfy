/**
 * The league snapshot as the Sleeper API delivers it. Text fields that the
 * dashboard only ever reads through JavaScript truthiness (`x || default`,
 * `x && ...`) are plain strings in which "" stands for null, undefined and
 * the empty string alike; fields whose null-ness is observable are `Option`s.
 */
module Entities {
  import opened Wrappers

  /** An entry of the NFL player catalog (`players[pid]`). */
  datatype Player = Player(
    playerId: string,
    firstName: string,
    lastName: string,
    position: string,
    team: string,
    injuryStatus: string,
    status: string)

  /** A league member; `teamName` is `metadata.team_name`. */
  datatype User = User(userId: string, username: string, displayName: string, teamName: string, avatar: string)

  /**
   * A roster. `players` and `starters` hold [] where the API sends null (every
   * use reads them as `x || []`); the record fields are `settings.wins`,
   * `settings.losses`, `settings.ties`, `settings.fpts` and `settings.fpts_decimal`.
   */
  datatype Roster = Roster(
    rosterId: nat,
    ownerId: Option<string>,
    players: seq<string>,
    starters: seq<string>,
    wins: nat,
    losses: nat,
    ties: nat,
    fpts: int,
    fptsDecimal: int)

  /**
   * One roster's entry in one week's matchups. `starters` may be absent, and an
   * absent list is not the same as an empty one (`m.starters || fallback`).
   * `startersPoints` holds [] where the API sends null.
   */
  datatype Matchup = Matchup(
    rosterId: nat,
    matchupId: Option<int>,
    starters: Option<seq<string>>,
    startersPoints: seq<real>,
    points: real)

  /** The player catalog, keyed by player id. */
  type Catalog = map<string, Player>

  /** One week's matchups, null for a week with no data. */
  type Week = Option<seq<Matchup>>

  /** The matchups of weeks 1..currentWeek: entry `w - 1` holds week `w`. */
  type Season = seq<Week>

  /** `m => m.roster_id === id`. */
  function MatchupOf(id: nat): Matchup -> bool {
    (m: Matchup) => m.rosterId == id
  }

  /** JavaScript's `a || b` on strings. */
  function Or(a: string, b: string): (r: string)
    ensures a != "" ==> r == a
    ensures a == "" ==> r == b
    ensures r == "" <==> a == "" && b == ""
  {
    if a != "" then a else b
  }

  /** A starter slot is empty when its id is falsy or the literal "0". */
  predicate EmptySlot(pid: string) {
    pid == "" || pid == "0"
  }

  /** The owner id when it is truthy (`if (r.owner_id)`). */
  predicate HasOwner(r: Roster) {
    r.ownerId.Some? && r.ownerId.value != ""
  }

  // ---------------------------------------------------------------------
  // Entity index builder: `new Map(xs.map(x => [key(x), x]))`

  /** `xs[i]` is the last element of `xs` with its key. */
  ghost predicate IsLastWithKey<K, V>(xs: seq<V>, key: V -> K, i: int) {
    0 <= i < |xs| && forall j :: i < j < |xs| ==> key(xs[j]) != key(xs[i])
  }

  /**
   * The index of `xs` by `key`: every key present in `xs` is mapped, and to the
   * last element carrying it (a later `set` on a `Map` overwrites an earlier one).
   */
  function IndexBy<K, V>(xs: seq<V>, key: V -> K): (m: map<K, V>)
    ensures m.Keys == KeysOf(xs, key)
    ensures forall k :: k in m ==> exists i :: IsLastWithKey(xs, key, i) && key(xs[i]) == k && m[k] == xs[i]
  {
    if xs == [] then map[]
    else
      var init, last := xs[..|xs| - 1], xs[|xs| - 1];
      var m0 := IndexBy(init, key);
      assert xs == init + [last];
      KeysOfSnoc(init, last, key);
      IndexStep(init, last, key, m0);
      m0[key(last) := last]
  }

  /** Setting the last element's key keeps every key mapped to the last element carrying it. */
  lemma IndexStep<K, V>(init: seq<V>, last: V, key: V -> K, m0: map<K, V>)
    requires forall k :: k in m0 ==> exists i :: IsLastWithKey(init, key, i) && key(init[i]) == k && m0[k] == init[i]
    ensures var xs, m := init + [last], m0[key(last) := last];
            forall k :: k in m ==> exists i :: IsLastWithKey(xs, key, i) && key(xs[i]) == k && m[k] == xs[i]
  {
    var xs, m := init + [last], m0[key(last) := last];
    assert IsLastWithKey(xs, key, |init|);
    forall k | k in m0 && k != key(last)
      ensures exists i :: IsLastWithKey(xs, key, i) && key(xs[i]) == k && m[k] == xs[i]
    {
      var i :| IsLastWithKey(init, key, i) && key(init[i]) == k && m0[k] == init[i];
      assert IsLastWithKey(xs, key, i);
    }
  }

  /** The keys carried by the elements of `xs`. */
  function KeysOf<K, V>(xs: seq<V>, key: V -> K): set<K> {
    set i | 0 <= i < |xs| :: key(xs[i])
  }

  /** Appending an element adds its key. */
  lemma KeysOfSnoc<K, V>(init: seq<V>, x: V, key: V -> K)
    ensures KeysOf(init + [x], key) == KeysOf(init, key) + {key(x)}
  {
    var xs := init + [x];
    forall k | k in KeysOf(xs, key) ensures k in KeysOf(init, key) + {key(x)} {
      var i :| 0 <= i < |xs| && key(xs[i]) == k;
      if i < |init| {
        assert init[i] == xs[i];
      }
    }
    forall k | k in KeysOf(init, key) ensures k in KeysOf(xs, key) {
      var i :| 0 <= i < |init| && key(init[i]) == k;
      assert xs[i] == init[i];
    }
    assert xs[|init|] == x;
  }

  /** `userById`: users keyed by user id, a later duplicate replacing an earlier one. */
  function UserIndex(users: seq<User>): map<string, User> {
    IndexBy(users, (u: User) => u.userId)
  }

  /** `rosterById`: rosters keyed by roster id, a later duplicate replacing an earlier one. */
  function RosterIndex(rosters: seq<Roster>): map<nat, Roster> {
    IndexBy(rosters, (r: Roster) => r.rosterId)
  }

  // ---------------------------------------------------------------------
  // Starter slots of a season, the unit of every per-player aggregation

  /** A counted starter slot: who started, for which roster, and what it scored. */
  datatype Slot = Slot(rosterId: nat, pid: string, points: real)

  predicate WeekStartersPresent(ms: seq<Matchup>) {
    forall i :: 0 <= i < |ms| ==> ms[i].starters.Some?
  }

  /** Every matchup of every fetched week has a starter list. */
  predicate StartersPresent(season: Season) {
    forall w :: 0 <= w < |season| && season[w].Some? ==> WeekStartersPresent(season[w].value)
  }

  /** `starters_points[j] || 0`: the points of slot `j`, 0 when the API sent none. */
  function PointsAt(m: Matchup, j: nat): real {
    if j < |m.startersPoints| then m.startersPoints[j] else 0.0
  }

  /** The non-empty slots among the first `n` starters of `m`, in slot order. */
  function MatchupSlots(m: Matchup, n: nat): (r: seq<Slot>)
    requires m.starters.Some? && n <= |m.starters.value|
    ensures |r| <= n
    ensures forall k :: 0 <= k < |r| ==> r[k].rosterId == m.rosterId && !EmptySlot(r[k].pid)
  {
    if n == 0 then []
    else
      var pid := m.starters.value[n - 1];
      MatchupSlots(m, n - 1) + (if EmptySlot(pid) then [] else [Slot(m.rosterId, pid, PointsAt(m, n - 1))])
  }

  /** The non-empty slots of all of `m`'s starters. */
  function AllMatchupSlots(m: Matchup): seq<Slot>
    requires m.starters.Some?
  {
    MatchupSlots(m, |m.starters.value|)
  }

  /** The non-empty slots of one week, matchup by matchup. */
  function WeekSlots(ms: seq<Matchup>): seq<Slot>
    requires WeekStartersPresent(ms)
  {
    if ms == [] then [] else WeekSlots(ms[..|ms| - 1]) + AllMatchupSlots(ms[|ms| - 1])
  }

  /** The non-empty slots of a season, week by week; null weeks contribute nothing. */
  function SeasonSlots(season: Season): seq<Slot>
    requires StartersPresent(season)
  {
    if season == [] then []
    else
      var last := season[|season| - 1];
      SeasonSlots(season[..|season| - 1]) + (if last.Some? then WeekSlots(last.value) else [])
  }

  lemma WeekSlotsStep(ms: seq<Matchup>, i: nat)
    requires i < |ms| && WeekStartersPresent(ms)
    ensures WeekSlots(ms[..i + 1]) == WeekSlots(ms[..i]) + AllMatchupSlots(ms[i])
  {
    assert ms[..i + 1][..i] == ms[..i];
  }

  lemma SeasonSlotsStep(season: Season, w: nat)
    requires w < |season| && StartersPresent(season)
    ensures SeasonSlots(season[..w + 1]) ==
            SeasonSlots(season[..w]) + (if season[w].Some? then WeekSlots(season[w].value) else [])
  {
    assert season[..w + 1][..w] == season[..w];
  }

  lemma SeasonSlotsAppend(a: Season, b: Season)
    requires StartersPresent(a) && StartersPresent(b)
    ensures StartersPresent(a + b)
    ensures SeasonSlots(a + b) == SeasonSlots(a) + SeasonSlots(b)
  {
    if b != [] {
      var b', last := b[..|b| - 1], b[|b| - 1];
      assert a + b == (a + b') + [last];
      assert (a + b)[..|a + b| - 1] == a + b';
      SeasonSlotsAppend(a, b');
    } else {
      assert a + b == a;
    }
  }
}
