/**
 * The navigation bar's reading of the current path: the league id is the
 * digit run captured by `/\/league\/(\d+)/` at its leftmost match, and a
 * navigation entry is active when its path occurs in the current path.
 */
module Navbar {
  import opened Wrappers
  import opened Text

  const LeagueSegment: string := "/league/"

  /** The pattern matches at `i`: the segment occurs there and a digit follows it. */
  predicate MatchesAt(path: string, i: int) {
    OccursAt(path, LeagueSegment, i) && i + |LeagueSegment| < |path| && IsDigit(path[i + |LeagueSegment|])
  }

  /** The length of the longest run of digits starting at `j` (`\d+` is greedy). */
  function DigitRun(s: string, j: nat): (n: nat)
    requires j <= |s|
    ensures j + n <= |s|
    ensures forall k :: j <= k < j + n ==> IsDigit(s[k])
    ensures j + n == |s| || !IsDigit(s[j + n])
    decreases |s| - j
  {
    if j < |s| && IsDigit(s[j]) then 1 + DigitRun(s, j + 1) else 0
  }

  /** The leftmost index from `i` on where the pattern matches. */
  function FirstMatch(path: string, i: nat): (r: Option<nat>)
    requires i <= |path|
    ensures r.Some? ==> i <= r.value && MatchesAt(path, r.value) && forall m :: i <= m < r.value ==> !MatchesAt(path, m)
    ensures r.None? ==> forall m :: i <= m ==> !MatchesAt(path, m)
    decreases |path| - i
  {
    if MatchesAt(path, i) then Some(i)
    else if i == |path| then None
    else FirstMatch(path, i + 1)
  }

  /** `leagueIdMatch ? leagueIdMatch[1] : null`. */
  function LeagueId(path: string): Option<string> {
    var m := FirstMatch(path, 0);
    if m.None? then None
    else
      var start := m.value + |LeagueSegment|;
      Some(path[start..start + DigitRun(path, start)])
  }

  /** `isActive(p)`: `p` occurs somewhere in the current path. */
  function IsActive(pathname: string, p: string): (b: bool)
    ensures b <==> exists k :: OccursAt(pathname, p, k)
  {
    Includes(pathname, p)
  }

  // ---------------------------------------------------------------------
  // Properties

  /** There is no league id exactly when no "/league/" is followed by a digit. */
  lemma NoLeagueId(path: string)
    ensures LeagueId(path).None? <==> forall i :: !MatchesAt(path, i)
  {
    if FirstMatch(path, 0).None? {
      forall i ensures !MatchesAt(path, i) {
        if i < 0 {
          assert !OccursAt(path, LeagueSegment, i);
        }
      }
    }
  }

  /**
   * A league id is a non-empty run of digits that directly follows the first
   * "/league/" that a digit follows, and extends as far as the digits do.
   */
  lemma LeagueIdMeaning(path: string)
    requires LeagueId(path).Some?
    ensures var id := LeagueId(path).value;
            |id| > 0 && (forall k :: 0 <= k < |id| ==> IsDigit(id[k])) &&
            exists i :: MatchesAt(path, i) && (forall m :: 0 <= m < i ==> !MatchesAt(path, m)) &&
              var start := i + |LeagueSegment|;
              start + |id| <= |path| && path[start..start + |id|] == id &&
              (start + |id| == |path| || !IsDigit(path[start + |id|]))
  {
    var i := FirstMatch(path, 0).value;
    var start := i + |LeagueSegment|;
    var id := path[start..start + DigitRun(path, start)];
    assert IsDigit(path[start]);
    assert forall k :: 0 <= k < |id| ==> id[k] == path[start + k];
  }

  /** A league page path yields its id, also below a nested route. */
  lemma LeagueIdExample()
    ensures LeagueId("/league/123/standings") == Some("123")
  {
    var path := "/league/123/standings";
    assert path[0..8] == LeagueSegment;
    assert MatchesAt(path, 0);
    assert FirstMatch(path, 0) == Some(0);
    assert path[11] == '/';
    assert DigitRun(path, 11) == 0;
    assert DigitRun(path, 10) == 1;
    assert DigitRun(path, 9) == 2;
    assert DigitRun(path, 8) == 3;
    assert path[8..11] == "123";
  }

  /** A league segment followed by something other than a digit gives no id. */
  lemma NoDigitsNoId()
    ensures LeagueId("/league/abc").None?
  {
    NoLeagueId("/league/abc");
    forall i ensures !MatchesAt("/league/abc", i) {
    }
  }
}
