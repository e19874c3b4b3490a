/**
 * The league history service: starting from the current league, it follows
 * each league's `previous_league_id` back through earlier seasons, recording
 * per league the user's roster and the rosters keyed by owner, and returns
 * the records newest season first. The two Sleeper API calls per league are
 * modelled as one lookup in a map of fetch outcomes.
 */
module SleeperEngine {
  import opened Wrappers
  import opened Entities
  import opened Sorting
  import opened JsObject

  /** The league fields the service copies. `season` is the season year as a number. */
  datatype League = League(leagueId: string, name: string, season: int, draftId: string, previousLeagueId: string)

  /**
   * What fetching a league id gives: an error from either call, or the league
   * with its rosters (null rosters stay null). An id missing from the map is a
   * league that is not found.
   */
  datatype Fetch = Failed | Found(league: League, rosters: Option<seq<Roster>>)

  type Api = map<string, Fetch>

  /** One record of the history. */
  datatype HistoryEntry = HistoryEntry(
    season: int,
    leagueId: string,
    name: string,
    roster: Option<Roster>,
    rosters: Dict<Roster>,
    draftId: string,
    previousLeagueId: string)

  // ---------------------------------------------------------------------
  // The rosters of one league

  /** `rostersByOwnerId`: rosters with a truthy owner id, keyed by it; a later roster replaces an earlier one. */
  function OwnerIndex(rosters: seq<Roster>): (d: Dict<Roster>)
    ensures Valid(d)
  {
    if rosters == [] then Empty()
    else
      var d := OwnerIndex(rosters[..|rosters| - 1]);
      var r := rosters[|rosters| - 1];
      if HasOwner(r) then Put(d, r.ownerId.value, r) else d
  }

  /** `userRoster`: the last roster owned by `userId`. */
  function UserRoster(rosters: seq<Roster>, userId: string): Option<Roster> {
    if rosters == [] then None
    else
      var r := rosters[|rosters| - 1];
      if r.ownerId == Some(userId) then Some(r) else UserRoster(rosters[..|rosters| - 1], userId)
  }

  /** Roster `i` is the last one owned by `owner`. */
  ghost predicate LastOwnedBy(rosters: seq<Roster>, i: int, owner: string) {
    0 <= i < |rosters| && rosters[i].ownerId == Some(owner) &&
    forall j :: i < j < |rosters| ==> rosters[j].ownerId != Some(owner)
  }

  /**
   * The owner index holds exactly the truthy owner ids, each mapped to the last
   * roster with that owner.
   */
  lemma {:induction false} OwnerIndexMeaning(rosters: seq<Roster>, owner: string)
    ensures owner in OwnerIndex(rosters).entries <==>
            owner != "" && exists i :: 0 <= i < |rosters| && rosters[i].ownerId == Some(owner)
    ensures owner in OwnerIndex(rosters).entries ==>
            exists i :: LastOwnedBy(rosters, i, owner) && OwnerIndex(rosters).entries[owner] == rosters[i]
  {
    if rosters != [] {
      var init, r := rosters[..|rosters| - 1], rosters[|rosters| - 1];
      OwnerIndexMeaning(init, owner);
      assert rosters == init + [r];
      if owner in OwnerIndex(rosters).entries {
        if r.ownerId == Some(owner) {
          assert LastOwnedBy(rosters, |rosters| - 1, owner);
        } else {
          var i :| LastOwnedBy(init, i, owner) && OwnerIndex(init).entries[owner] == init[i];
          assert LastOwnedBy(rosters, i, owner);
        }
      }
    }
  }

  /** The user's roster is the last roster they own, and there is none when they own none. */
  lemma {:induction false} UserRosterMeaning(rosters: seq<Roster>, userId: string)
    ensures UserRoster(rosters, userId).None? <==> forall i :: 0 <= i < |rosters| ==> rosters[i].ownerId != Some(userId)
    ensures UserRoster(rosters, userId).Some? ==>
            exists i :: LastOwnedBy(rosters, i, userId) && UserRoster(rosters, userId).value == rosters[i]
  {
    if rosters != [] {
      var init, r := rosters[..|rosters| - 1], rosters[|rosters| - 1];
      UserRosterMeaning(init, userId);
      assert rosters == init + [r];
      if r.ownerId == Some(userId) {
        assert LastOwnedBy(rosters, |rosters| - 1, userId);
      } else if UserRoster(init, userId).Some? {
        var i :| LastOwnedBy(init, i, userId) && UserRoster(init, userId).value == init[i];
        assert LastOwnedBy(rosters, i, userId);
      }
    }
  }

  /** The record of a fetched league. */
  function EntryOf(league: League, rosters: Option<seq<Roster>>, userId: string): HistoryEntry {
    var all := rosters.GetOr([]);
    HistoryEntry(league.season, league.leagueId, league.name, UserRoster(all, userId), OwnerIndex(all),
                 league.draftId, league.previousLeagueId)
  }

  // ---------------------------------------------------------------------
  // The walk

  /** The walk records `id`: it is truthy and its league was fetched without error. */
  predicate Continues(api: Api, id: string) {
    id != "" && id in api && api[id].Found?
  }

  /** From `id`, the walk stops within `n` recorded leagues. */
  ghost predicate EndsWithin(api: Api, id: string, n: nat)
    decreases n
  {
    !Continues(api, id) || (n > 0 && EndsWithin(api, api[id].league.previousLeagueId, n - 1))
  }

  /** The records of the walk from `id`, in visiting order. */
  function Walk(api: Api, id: string, userId: string, n: nat): seq<HistoryEntry>
    requires EndsWithin(api, id, n)
    decreases n
  {
    if !Continues(api, id) then []
    else
      var f := api[id];
      [EntryOf(f.league, f.rosters, userId)] + Walk(api, f.league.previousLeagueId, userId, n - 1)
  }

  /** The bound is only there to ensure termination: any bound that suffices gives the same walk. */
  lemma {:induction false} WalkBoundIrrelevant(api: Api, id: string, userId: string, n: nat, m: nat)
    requires EndsWithin(api, id, n) && EndsWithin(api, id, m)
    ensures Walk(api, id, userId, n) == Walk(api, id, userId, m)
    decreases n
  {
    if Continues(api, id) {
      WalkBoundIrrelevant(api, api[id].league.previousLeagueId, userId, n - 1, m - 1);
    }
  }

  /**
   * One record per league on the chain: the first is the starting league's,
   * each next one is the league its predecessor names as previous, and the
   * walk ends at a falsy, unknown or failing previous id.
   */
  lemma {:induction false} WalkFollowsChain(api: Api, id: string, userId: string, n: nat)
    requires EndsWithin(api, id, n)
    ensures var w := Walk(api, id, userId, n);
            (w == [] <==> !Continues(api, id)) &&
            (w != [] ==> w[0] == EntryOf(api[id].league, api[id].rosters, userId)) &&
            (forall i :: 0 <= i < |w| - 1 ==>
               Continues(api, w[i].previousLeagueId) &&
               w[i + 1] == EntryOf(api[w[i].previousLeagueId].league, api[w[i].previousLeagueId].rosters, userId)) &&
            (w != [] ==> !Continues(api, w[|w| - 1].previousLeagueId))
    decreases n
  {
    if Continues(api, id) {
      var f := api[id];
      var next := f.league.previousLeagueId;
      WalkFollowsChain(api, next, userId, n - 1);
      var w, rest := Walk(api, id, userId, n), Walk(api, next, userId, n - 1);
      assert w == [EntryOf(f.league, f.rosters, userId)] + rest;
      forall i | 0 <= i < |w| - 1
        ensures Continues(api, w[i].previousLeagueId) &&
                w[i + 1] == EntryOf(api[w[i].previousLeagueId].league, api[w[i].previousLeagueId].rosters, userId)
      {
        if i > 0 {
          assert w[i] == rest[i - 1] && w[i + 1] == rest[i];
        }
      }
      if rest != [] {
        assert w[|w| - 1] == rest[|rest| - 1];
      }
    }
  }

  /** Without a visited set, a league naming itself as previous is walked forever. */
  lemma SelfLoopNeverEnds(api: Api, id: string, n: nat)
    requires Continues(api, id) && api[id].league.previousLeagueId == id
    ensures !EndsWithin(api, id, n)
  {
    if n > 0 {
      SelfLoopNeverEnds(api, id, n - 1);
    }
  }

  /** `(a, b) => b.season - a.season`: newest season first. */
  function BySeasonDesc(e: HistoryEntry): real {
    -(e.season as real)
  }

  /** `fetchLeagueHistory`: the walk's records, newest season first. */
  function History(api: Api, currentLeagueId: string, userId: string, n: nat): seq<HistoryEntry>
    requires EndsWithin(api, currentLeagueId, n)
  {
    Sort(Walk(api, currentLeagueId, userId, n), BySeasonDesc)
  }

  /** Sorting records by season puts the newest first. */
  lemma SeasonOrder(w: seq<HistoryEntry>)
    ensures var h := Sort(w, BySeasonDesc);
            forall i, j :: 0 <= i < j < |h| ==> h[i].season >= h[j].season
  {
    var h := Sort(w, BySeasonDesc);
    forall i, j | 0 <= i < j < |h| ensures h[i].season >= h[j].season {
      assert BySeasonDesc(h[i]) <= BySeasonDesc(h[j]);
    }
  }

  /**
   * The history holds the walk's records, newest season first; records with
   * equal sort key `v` (the same season) keep their visiting order.
   */
  lemma HistoryOrder(api: Api, currentLeagueId: string, userId: string, n: nat, v: real)
    requires EndsWithin(api, currentLeagueId, n)
    ensures var h := History(api, currentLeagueId, userId, n);
            var w := Walk(api, currentLeagueId, userId, n);
            multiset(h) == multiset(w) &&
            (forall i, j :: 0 <= i < j < |h| ==> h[i].season >= h[j].season) &&
            WithKey(h, BySeasonDesc, v) == WithKey(w, BySeasonDesc, v)
  {
    var w := Walk(api, currentLeagueId, userId, n);
    SeasonOrder(w);
    SortStable(w, BySeasonDesc, v);
  }

  /** One step of the walk. */
  lemma WalkStep(api: Api, id: string, userId: string, n: nat)
    requires EndsWithin(api, id, n) && Continues(api, id)
    ensures n > 0 && EndsWithin(api, api[id].league.previousLeagueId, n - 1)
    ensures Walk(api, id, userId, n) ==
            [EntryOf(api[id].league, api[id].rosters, userId)] + Walk(api, api[id].league.previousLeagueId, userId, n - 1)
  {
  }

  // ---------------------------------------------------------------------
  // The computation

  /** One step of the walk, as seen from the records collected so far. */
  lemma WalkPrefix(api: Api, start: string, id: string, userId: string, bound: nat, n: nat, collected: seq<HistoryEntry>)
    requires EndsWithin(api, start, bound) && EndsWithin(api, id, n) && Continues(api, id)
    requires collected + Walk(api, id, userId, n) == Walk(api, start, userId, bound)
    ensures n > 0 && EndsWithin(api, api[id].league.previousLeagueId, n - 1)
    ensures (collected + [EntryOf(api[id].league, api[id].rosters, userId)]) +
            Walk(api, api[id].league.previousLeagueId, userId, n - 1) == Walk(api, start, userId, bound)
  {
    WalkStep(api, id, userId, n);
    var e := EntryOf(api[id].league, api[id].rosters, userId);
    var rest := Walk(api, api[id].league.previousLeagueId, userId, n - 1);
    assert collected + ([e] + rest) == (collected + [e]) + rest;
  }

  /** The body of the walk: fetch the league's rosters and record the league. */
  method FetchOne(api: Api, leagueId: string, userId: string) returns (entry: HistoryEntry)
    requires Continues(api, leagueId)
    ensures entry == EntryOf(api[leagueId].league, api[leagueId].rosters, userId)
  {
    var league := api[leagueId].league;
    var byOwner, userRoster := IndexRosters(api[leagueId].rosters, userId);
    entry := HistoryEntry(league.season, league.leagueId, league.name, userRoster, byOwner,
                          league.draftId, league.previousLeagueId);
  }

  /** The `rosters.forEach` that fills `rostersByOwnerId` and `userRoster`. */
  method IndexRosters(rosters: Option<seq<Roster>>, userId: string) returns (byOwner: Dict<Roster>, userRoster: Option<Roster>)
    ensures byOwner == OwnerIndex(rosters.GetOr([]))
    ensures userRoster == UserRoster(rosters.GetOr([]), userId)
  {
    byOwner, userRoster := Empty(), None;
    if rosters.None? {
      return;
    }
    var rs := rosters.value;
    for k := 0 to |rs|
      invariant byOwner == OwnerIndex(rs[..k])
      invariant userRoster == UserRoster(rs[..k], userId)
    {
      assert rs[..k + 1][..k] == rs[..k];
      var r := rs[k];
      if r.ownerId.Some? && r.ownerId.value != "" {
        byOwner := Put(byOwner, r.ownerId.value, r);
      }
      if r.ownerId == Some(userId) {
        userRoster := Some(r);
      }
    }
    assert rs[..|rs|] == rs;
  }

  /**
   * `fetchLeagueHistory`: the recursive walk written as a loop over the chain,
   * then the sort. `bound` is a ghost bound on the chain's length.
   */
  method FetchLeagueHistory(api: Api, currentLeagueId: string, userId: string, ghost bound: nat)
    returns (history: seq<HistoryEntry>)
    requires EndsWithin(api, currentLeagueId, bound)
    ensures history == History(api, currentLeagueId, userId, bound)
  {
    var collected: seq<HistoryEntry> := [];
    var leagueId := currentLeagueId;
    ghost var n := bound;
    while Continues(api, leagueId)
      invariant EndsWithin(api, leagueId, n)
      invariant collected + Walk(api, leagueId, userId, n) == Walk(api, currentLeagueId, userId, bound)
      decreases n
    {
      var entry := FetchOne(api, leagueId, userId);
      WalkPrefix(api, currentLeagueId, leagueId, userId, bound, n, collected);
      collected := collected + [entry];
      leagueId := api[leagueId].league.previousLeagueId;
      n := n - 1;
    }
    assert Walk(api, leagueId, userId, n) == [];
    assert collected == Walk(api, currentLeagueId, userId, bound);
    history := Sort(collected, BySeasonDesc);
  }
}
