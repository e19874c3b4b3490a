/**
 * The per-matchup lineup rules shared, line for line, by the lineup hook and
 * the older lineup checker component: the empty-slot short cut, the scan of
 * the starters that stops at the first disqualifying one, and the three-way
 * grouping of the resulting team records.
 */
module LineupRules {
  import opened Wrappers
  import opened Text
  import opened Entities
  import opened NflData

  /** A flagged starter: player id, display name and the reason shown. */
  datatype Flag = Flag(pid: string, name: string, reason: string)

  /** The one synthetic flag recorded for a lineup with empty slots. */
  const EmptySlotFlag: Flag := Flag("empty", "Empty Slot", "Empty Slot")

  /** One team's line in the lineup report. */
  datatype TeamRow = TeamRow(
    rosterId: nat,
    name: string,
    avatar: Option<string>,
    status: Status,
    flagged: seq<Flag>,
    matchupId: Option<int>)

  /** The outcome of checking one lineup. */
  datatype Outcome = Outcome(status: Status, flagged: seq<Flag>)

  /** `${p.first_name || ""} ${p.last_name || ""}`.trim() */
  function FullName(p: Player): string {
    Trim(p.firstName + " " + p.lastName)
  }

  /** Either status text is "pup", ignoring case. */
  predicate IsPup(p: Player) {
    ToLower(p.injuryStatus) == "pup" || ToLower(p.status) == "pup"
  }

  /** What one non-empty starter does to the scan. */
  datatype Verdict = Skip | Warn(flag: Flag) | Stop(flag: Flag)

  /**
   * The verdict on one starter: a defense is judged only against the bye set;
   * an id missing from the catalog is passed over; a real player is stopped by
   * a bye, then by PUP, then by an INCOMPLETE injury bucket, and warned about
   * when the bucket is POTENTIAL.
   */
  function StarterVerdict(pid: string, players: Catalog, byes: set<string>): Verdict {
    if IsDstStarterId(pid) then
      if pid in byes then Stop(Flag(pid, pid + " D/ST", "BYE")) else Skip
    else if pid !in players then Skip
    else
      var p := players[pid];
      if p.team != "" && p.team in byes then Stop(Flag(pid, FullName(p), "BYE"))
      else if IsPup(p) then Stop(Flag(pid, FullName(p), "PUP"))
      else match ClassifyInjury(Some(p))
        case INCOMPLETE => Stop(Flag(pid, FullName(p), Or(p.injuryStatus, Or(p.status, "Out"))))
        case POTENTIAL => Warn(Flag(pid, FullName(p), Or(p.injuryStatus, "Questionable")))
        case OK => Skip
  }

  /** The reasons a starter can stop the scan with, and when it is warned about. */
  lemma VerdictReasons(pid: string, players: Catalog, byes: set<string>)
    ensures StarterVerdict(pid, players, byes).Stop? ==>
              StarterVerdict(pid, players, byes).flag.reason in {"BYE", "PUP", "Out"} ||
              (pid in players && StarterVerdict(pid, players, byes).flag.reason in
                 {players[pid].injuryStatus, players[pid].status})
    ensures StarterVerdict(pid, players, byes).Warn? ==>
              !IsDstStarterId(pid) && pid in players && ClassifyInjury(Some(players[pid])) == POTENTIAL
    ensures IsDstStarterId(pid) && pid !in byes ==> StarterVerdict(pid, players, byes) == Skip
    ensures !IsDstStarterId(pid) && pid !in players ==> StarterVerdict(pid, players, byes) == Skip
    ensures StarterVerdict(pid, players, byes).Stop? || StarterVerdict(pid, players, byes).Warn? ==>
              StarterVerdict(pid, players, byes).flag.pid == pid
  {
  }

  /**
   * The "Out" fallback of an INCOMPLETE-bucket reason is never reached: a
   * player can only land in that bucket through a non-empty status text.
   */
  lemma OutFallbackNeverUsed(p: Player)
    requires ClassifyInjury(Some(p)) == INCOMPLETE
    ensures Or(p.injuryStatus, Or(p.status, "Out")) == Or(p.injuryStatus, p.status)
    ensures Or(p.injuryStatus, p.status) != ""
  {
    if p.injuryStatus == "" && p.status == "" {
      BlankIsOk(Some(p));
    }
  }

  /** The verdicts on a list of starters, one per starter. */
  function Verdicts(pids: seq<string>, players: Catalog, byes: set<string>): (vs: seq<Verdict>)
    ensures |vs| == |pids|
    ensures forall i :: 0 <= i < |pids| ==> vs[i] == StarterVerdict(pids[i], players, byes)
  {
    seq(|pids|, i requires 0 <= i < |pids| => StarterVerdict(pids[i], players, byes))
  }

  /** The worse of two statuses, in the order OK, POTENTIAL, INCOMPLETE. */
  function Worse(a: Status, b: Status): Status {
    if a == INCOMPLETE || b == INCOMPLETE then INCOMPLETE
    else if a == POTENTIAL || b == POTENTIAL then POTENTIAL
    else OK
  }

  /** Running a scan after another: a finished (INCOMPLETE) scan ignores the rest. */
  function Then(first: Outcome, second: Outcome): Outcome {
    if first.status == INCOMPLETE then first
    else Outcome(Worse(first.status, second.status), first.flagged + second.flagged)
  }

  /**
   * The scan of a lineup without empty slots, verdict by verdict: a stopping
   * starter ends it with its flag and INCOMPLETE, a warned one adds its flag
   * and raises the team to POTENTIAL, and the others are passed over.
   */
  function Scan(vs: seq<Verdict>): Outcome {
    if vs == [] then Outcome(OK, [])
    else match vs[0]
      case Stop(f) => Outcome(INCOMPLETE, [f])
      case Warn(f) => Then(Outcome(POTENTIAL, [f]), Scan(vs[1..]))
      case Skip => Scan(vs[1..])
  }

  /** The scan of a lineup's starters. */
  function Evaluate(pids: seq<string>, players: Catalog, byes: set<string>): Outcome {
    Scan(Verdicts(pids, players, byes))
  }

  /** Some raw starter slot is empty (`rawStarters.some(...)`). */
  predicate HasEmptySlot(raw: seq<string>) {
    exists i :: 0 <= i < |raw| && EmptySlot(raw[i])
  }

  /** The outcome for one lineup: any empty slot decides it on its own, else the scan does. */
  function TeamOutcome(raw: seq<string>, players: Catalog, byes: set<string>): Outcome {
    if HasEmptySlot(raw) then Outcome(INCOMPLETE, [EmptySlotFlag]) else Evaluate(raw, players, byes)
  }

  /** `f` is the warning the catalog raises for its own player id. */
  ghost predicate IsWarning(f: Flag, players: Catalog, byes: set<string>) {
    StarterVerdict(f.pid, players, byes) == Warn(f)
  }

  /** `f` is a flag that ends a scan: the empty-slot flag or a stopping starter's flag. */
  ghost predicate IsStopFlag(f: Flag, players: Catalog, byes: set<string>) {
    f == EmptySlotFlag || StarterVerdict(f.pid, players, byes) == Stop(f)
  }

  /** Chaining scans is associative, so a scan can be split anywhere. */
  lemma ThenAssociative(x: Outcome, y: Outcome, z: Outcome)
    ensures Then(Then(x, y), z) == Then(x, Then(y, z))
  {
    if x.status != INCOMPLETE && y.status != INCOMPLETE {
      assert x.flagged + y.flagged + z.flagged == x.flagged + (y.flagged + z.flagged);
    }
  }

  /** The scan composes: scanning `a + b` is scanning `a`, then `b` unless `a` stopped. */
  lemma {:induction false} ScanAppend(a: seq<Verdict>, b: seq<Verdict>)
    ensures Scan(a + b) == Then(Scan(a), Scan(b))
  {
    if a == [] {
      assert a + b == b;
      assert [] + Scan(b).flagged == Scan(b).flagged;
    } else {
      assert (a + b)[0] == a[0];
      assert (a + b)[1..] == a[1..] + b;
      ScanAppend(a[1..], b);
      match a[0]
      case Stop(f) =>
      case Warn(f) =>
        ThenAssociative(Outcome(POTENTIAL, [f]), Scan(a[1..]), Scan(b));
      case Skip =>
    }
  }

  /**
   * Scanning `a + b` is scanning `a` and then `b`: a starter that stops the scan
   * makes everything after it irrelevant, while warnings never stop it and
   * a later stopping starter still escalates the team to INCOMPLETE.
   */
  lemma EvaluateAppend(a: seq<string>, b: seq<string>, players: Catalog, byes: set<string>)
    ensures Evaluate(a + b, players, byes) == Then(Evaluate(a, players, byes), Evaluate(b, players, byes))
  {
    assert Verdicts(a + b, players, byes) == Verdicts(a, players, byes) + Verdicts(b, players, byes);
    ScanAppend(Verdicts(a, players, byes), Verdicts(b, players, byes));
  }

  /**
   * The status of a scan: OK exactly when nothing is flagged; INCOMPLETE
   * exactly when some verdict stops it; POTENTIAL exactly when nothing stops it
   * and something warns.
   */
  lemma {:induction false} ScanStatus(vs: seq<Verdict>)
    ensures Scan(vs).status == OK <==> Scan(vs).flagged == []
    ensures Scan(vs).status == INCOMPLETE <==> exists i :: 0 <= i < |vs| && vs[i].Stop?
    ensures Scan(vs).status == POTENTIAL <==>
              (forall i :: 0 <= i < |vs| ==> !vs[i].Stop?) && exists i :: 0 <= i < |vs| && vs[i].Warn?
  {
    if vs != [] {
      var rest := vs[1..];
      ScanStatus(rest);
      assert forall i :: 0 < i < |vs| ==> vs[i] == rest[i - 1];
      assert forall i :: 0 <= i < |rest| ==> rest[i] == vs[i + 1];
    }
  }

  /**
   * The flags of a scan: when it stopped, the last flag is a stopping verdict's;
   * every flag before the last, and every flag of a scan that did not stop, is
   * a warning's.
   */
  lemma {:induction false} ScanFlags(vs: seq<Verdict>)
    ensures Scan(vs).status == INCOMPLETE ==>
              Scan(vs).flagged != [] && Stop(Scan(vs).flagged[|Scan(vs).flagged| - 1]) in vs
    ensures forall i :: 0 <= i < |Scan(vs).flagged| - 1 ==> Warn(Scan(vs).flagged[i]) in vs
    ensures Scan(vs).status != INCOMPLETE ==> forall f :: f in Scan(vs).flagged ==> Warn(f) in vs
  {
    if vs != [] {
      var rest := vs[1..];
      ScanFlags(rest);
      assert forall v :: v in rest ==> v in vs;
      match vs[0]
      case Stop(f) =>
      case Skip =>
      case Warn(f) =>
        var r, o := Scan(rest), Scan(vs);
        assert o.flagged == [f] + r.flagged;
        assert forall i :: 0 < i < |o.flagged| ==> o.flagged[i] == r.flagged[i - 1];
    }
  }

  /** A warning verdict on some starter is a warning about that starter's own id. */
  lemma WarnIsWarning(raw: seq<string>, f: Flag, players: Catalog, byes: set<string>)
    requires Warn(f) in Verdicts(raw, players, byes)
    ensures IsWarning(f, players, byes)
  {
    var vs := Verdicts(raw, players, byes);
    var i :| 0 <= i < |vs| && vs[i] == Warn(f);
    VerdictReasons(raw[i], players, byes);
  }

  /** A stopping verdict on some starter is a stopping flag for that starter's own id. */
  lemma StopIsStopFlag(raw: seq<string>, f: Flag, players: Catalog, byes: set<string>)
    requires Stop(f) in Verdicts(raw, players, byes)
    ensures IsStopFlag(f, players, byes)
  {
    var vs := Verdicts(raw, players, byes);
    var i :| 0 <= i < |vs| && vs[i] == Stop(f);
    VerdictReasons(raw[i], players, byes);
  }

  /** Every warning or stopping verdict on a lineup is one about its own starter. */
  lemma VerdictFlags(raw: seq<string>, players: Catalog, byes: set<string>)
    ensures forall f :: Warn(f) in Verdicts(raw, players, byes) ==> IsWarning(f, players, byes)
    ensures forall f :: Stop(f) in Verdicts(raw, players, byes) ==> IsStopFlag(f, players, byes)
  {
    forall f | Warn(f) in Verdicts(raw, players, byes)
      ensures IsWarning(f, players, byes)
    {
      WarnIsWarning(raw, f, players, byes);
    }
    forall f | Stop(f) in Verdicts(raw, players, byes)
      ensures IsStopFlag(f, players, byes)
    {
      StopIsStopFlag(raw, f, players, byes);
    }
  }

  /**
   * The status of every lineup outcome: OK exactly when nothing is flagged;
   * INCOMPLETE exactly when a slot is empty or some starter stops the scan;
   * POTENTIAL exactly when no slot is empty, nobody stops it and somebody is warned.
   */
  lemma OutcomeStatus(raw: seq<string>, players: Catalog, byes: set<string>)
    ensures TeamOutcome(raw, players, byes).status == OK <==> TeamOutcome(raw, players, byes).flagged == []
    ensures TeamOutcome(raw, players, byes).status == INCOMPLETE <==>
              HasEmptySlot(raw) || exists i :: 0 <= i < |raw| && StarterVerdict(raw[i], players, byes).Stop?
    ensures TeamOutcome(raw, players, byes).status == POTENTIAL <==>
              !HasEmptySlot(raw) &&
              (forall i :: 0 <= i < |raw| ==> !StarterVerdict(raw[i], players, byes).Stop?) &&
              (exists i :: 0 <= i < |raw| && StarterVerdict(raw[i], players, byes).Warn?)
  {
    ScanStatus(Verdicts(raw, players, byes));
  }

  /**
   * The flags of every lineup outcome: a lineup with empty slots carries the
   * single empty-slot flag however many slots are empty; an INCOMPLETE one ends
   * with the flag that decided it; every other flag is a warning.
   */
  lemma OutcomeFlags(raw: seq<string>, players: Catalog, byes: set<string>)
    ensures HasEmptySlot(raw) ==> TeamOutcome(raw, players, byes).flagged == [EmptySlotFlag]
    ensures var o := TeamOutcome(raw, players, byes);
            o.status == INCOMPLETE ==> o.flagged != [] && IsStopFlag(o.flagged[|o.flagged| - 1], players, byes)
    ensures var o := TeamOutcome(raw, players, byes);
            forall i :: 0 <= i < |o.flagged| - 1 ==> IsWarning(o.flagged[i], players, byes)
    ensures var o := TeamOutcome(raw, players, byes);
            o.status != INCOMPLETE ==> forall f :: f in o.flagged ==> IsWarning(f, players, byes)
  {
    if !HasEmptySlot(raw) {
      ScanFlags(Verdicts(raw, players, byes));
      VerdictFlags(raw, players, byes);
    }
  }

  /**
   * One more verdict on a scan that has not stopped: a stop ends it with its
   * flag, a warning adds its flag, anything else leaves it as it was.
   */
  lemma ScanExtend(vs: seq<Verdict>, i: nat)
    requires i < |vs| && Scan(vs[..i]).status != INCOMPLETE
    ensures vs[i].Stop? ==> Scan(vs[..i + 1]) == Outcome(INCOMPLETE, Scan(vs[..i]).flagged + [vs[i].flag])
    ensures vs[i].Warn? ==> Scan(vs[..i + 1]) == Outcome(POTENTIAL, Scan(vs[..i]).flagged + [vs[i].flag])
    ensures vs[i].Skip? ==> Scan(vs[..i + 1]) == Scan(vs[..i])
  {
    assert vs[..i + 1] == vs[..i] + [vs[i]];
    ScanAppend(vs[..i], [vs[i]]);
    assert Scan(vs[..i]).flagged + [] == Scan(vs[..i]).flagged;
  }

  /** Once a prefix of the verdicts has stopped the scan, the rest is never looked at. */
  lemma ScanStopped(vs: seq<Verdict>, i: nat)
    requires i <= |vs| && Scan(vs[..i]).status == INCOMPLETE
    ensures Scan(vs) == Scan(vs[..i])
  {
    assert vs == vs[..i] + vs[i..];
    ScanAppend(vs[..i], vs[i..]);
  }

  /**
   * The per-matchup body of the lineup check: the empty-slot short cut, then
   * the loop over the starters with its `break` at the first disqualifying one.
   */
  method EvaluateLineup(raw: seq<string>, players: Catalog, byes: set<string>)
    returns (status: Status, flagged: seq<Flag>)
    ensures Outcome(status, flagged) == TeamOutcome(raw, players, byes)
  {
    var hasEmptySlots := HasEmptySlot(raw);
    status := if hasEmptySlots then INCOMPLETE else OK;
    flagged := [];
    if hasEmptySlots {
      flagged := flagged + [EmptySlotFlag];
    }
    if !hasEmptySlots {
      ghost var vs := Verdicts(raw, players, byes);
      var i := 0;
      while i < |raw|
        invariant 0 <= i <= |raw|
        invariant Outcome(status, flagged) == Scan(vs[..i])
        invariant status != INCOMPLETE
      {
        var pid := raw[i];
        ScanExtend(vs, i);
        if vs[i].Stop? {
          ScanStopped(vs, i + 1);
        }
        if IsDstStarterId(pid) {
          if pid in byes {
            status := INCOMPLETE;
            flagged := flagged + [Flag(pid, pid + " D/ST", "BYE")];
            break;
          }
          i := i + 1;
          continue;
        }
        if pid !in players {
          i := i + 1;
          continue;
        }
        var p := players[pid];
        if p.team != "" && p.team in byes {
          status := INCOMPLETE;
          flagged := flagged + [Flag(pid, FullName(p), "BYE")];
          break;
        }
        var isPup := ToLower(p.injuryStatus) == "pup" || ToLower(p.status) == "pup";
        if isPup {
          status := INCOMPLETE;
          flagged := flagged + [Flag(pid, FullName(p), "PUP")];
          break;
        }
        var bucket := ClassifyInjury(Some(p));
        if bucket == INCOMPLETE {
          status := INCOMPLETE;
          flagged := flagged + [Flag(pid, FullName(p), Or(p.injuryStatus, Or(p.status, "Out")))];
          break;
        } else if bucket == POTENTIAL && status != INCOMPLETE {
          status := POTENTIAL;
          flagged := flagged + [Flag(pid, FullName(p), Or(p.injuryStatus, "Questionable"))];
        }
        i := i + 1;
      }
      if status != INCOMPLETE {
        assert vs[..|raw|] == vs;
      }
    }
  }

  // ---------------------------------------------------------------------
  // The report row of one matchup

  /** `rosterById.get(m.roster_id)`. */
  function RosterOf(m: Matchup, rosterById: map<nat, Roster>): Option<Roster> {
    if m.rosterId in rosterById then Some(rosterById[m.rosterId]) else None
  }

  /** `userById.get(roster?.owner_id)`: nothing without a roster or an owner id. */
  function OwnerOf(roster: Option<Roster>, userById: map<string, User>): Option<User> {
    if roster.Some? && roster.value.ownerId.Some? && roster.value.ownerId.value in userById
    then Some(userById[roster.value.ownerId.value])
    else None
  }

  /** The row pushed for matchup `m`: its ids, the owner's name and thumbnail, and the outcome. */
  function ReportRow(m: Matchup, owner: Option<User>, o: Outcome): TeamRow {
    var avatar := if owner.Some? then owner.value.avatar else "";
    TeamRow(m.rosterId, DisplayTeamName(owner), AvatarUrl(avatar, "thumbs"), o.status, o.flagged, m.matchupId)
  }

  // ---------------------------------------------------------------------
  // Grouping

  /** The teams with status `s`, in report order. */
  function WithStatus(teams: seq<TeamRow>, s: Status): (r: seq<TeamRow>)
    ensures forall i :: 0 <= i < |r| ==> r[i].status == s
  {
    if teams == [] then []
    else
      var last := teams[|teams| - 1];
      WithStatus(teams[..|teams| - 1], s) + (if last.status == s then [last] else [])
  }

  /**
   * `grouped`: one pass over the teams pushing each into the bucket of its
   * status; every bucket keeps the report order.
   */
  method Group(teams: seq<TeamRow>) returns (ok: seq<TeamRow>, potential: seq<TeamRow>, incomplete: seq<TeamRow>)
    ensures ok == WithStatus(teams, OK)
    ensures potential == WithStatus(teams, POTENTIAL)
    ensures incomplete == WithStatus(teams, INCOMPLETE)
  {
    ok, potential, incomplete := [], [], [];
    for i := 0 to |teams|
      invariant ok == WithStatus(teams[..i], OK)
      invariant potential == WithStatus(teams[..i], POTENTIAL)
      invariant incomplete == WithStatus(teams[..i], INCOMPLETE)
    {
      assert teams[..i + 1][..i] == teams[..i];
      var t := teams[i];
      match t.status
      case OK => ok := ok + [t];
      case POTENTIAL => potential := potential + [t];
      case INCOMPLETE => incomplete := incomplete + [t];
    }
    assert teams[..|teams|] == teams;
  }

  lemma WithStatusStep(teams: seq<TeamRow>, s: Status)
    requires teams != []
    ensures multiset(WithStatus(teams, s)) ==
            multiset(WithStatus(teams[..|teams| - 1], s)) +
            (if teams[|teams| - 1].status == s then multiset{teams[|teams| - 1]} else multiset{})
  {
  }

  lemma LastStep(teams: seq<TeamRow>)
    requires teams != []
    ensures multiset(teams) == multiset(teams[..|teams| - 1]) + multiset{teams[|teams| - 1]}
  {
    assert teams == teams[..|teams| - 1] + [teams[|teams| - 1]];
  }

  /** The three buckets partition the teams: together they hold each team exactly as often as the report does. */
  lemma {:induction false} GroupPartitions(teams: seq<TeamRow>)
    ensures multiset(WithStatus(teams, OK)) + multiset(WithStatus(teams, POTENTIAL)) +
            multiset(WithStatus(teams, INCOMPLETE)) == multiset(teams)
  {
    if teams != [] {
      GroupPartitions(teams[..|teams| - 1]);
      LastStep(teams);
      WithStatusStep(teams, OK);
      WithStatusStep(teams, POTENTIAL);
      WithStatusStep(teams, INCOMPLETE);
    }
  }

  /** The sizes of the three buckets add up to the number of teams. */
  lemma {:induction false} GroupSizes(teams: seq<TeamRow>)
    ensures |WithStatus(teams, OK)| + |WithStatus(teams, POTENTIAL)| + |WithStatus(teams, INCOMPLETE)| == |teams|
  {
    if teams != [] {
      GroupSizes(teams[..|teams| - 1]);
    }
  }
}
