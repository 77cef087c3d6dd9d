/** Switching the server between archives: two links, health checks, restore and
    rollback, with every state a crash could leave behind on record. */
module Cutover {
  import opened Text
  import opened Decimal
  import opened Versions

  /** plist: the folder the service still names, or None once it names the
      current link. disk: the version each archive folder reports. healthy: the
      folder whose server last answered the health check. */
  datatype World = World(plist: Option<string>, current: Option<string>, previous: Option<string>,
                         disk: map<string, string>, skip: Option<string>, healthy: string)

  /** The folder the service runs from. */
  function Root(w: World): Option<string> {
    if w.plist.Some? then w.plist else w.current
  }

  /** The last healthy archive is on disk and one of the names leads to it. */
  predicate Recoverable(w: World) {
    w.healthy in w.disk && (w.plist == Some(w.healthy) || w.current == Some(w.healthy) || w.previous == Some(w.healthy))
  }

  predicate AllRecoverable(trace: seq<World>) {
    forall i | 0 <= i < |trace| :: Recoverable(trace[i])
  }

  function Last(w: World, trace: seq<World>): World {
    if trace == [] then w else trace[|trace| - 1]
  }

  /** Between operations: the service runs, by its current link, the archive
      that was last healthy. */
  predicate Settled(w: World) {
    w.healthy in w.disk && Root(w) == Some(w.healthy)
  }

  // ----- cutover -----

  datatype Outcome = Switched | Restored | RestoreFailed

  /** Every state of one cutover in order, and how it ended. `works` and
      `restores` are the outcomes of the two restarts with their health waits. */
  function CutoverRun(w: World, name: string, works: bool, restores: bool): (seq<World>, Outcome)
    requires w.plist.None? && w.current.Some?
  {
    var was := w.current.value;
    var aimed := w.(previous := Some(was));
    var pointed := aimed.(current := Some(name));
    if works then ([aimed, pointed, pointed.(healthy := name)], Switched)
    else
      var back := pointed.(current := Some(was));
      var checked := if restores then back.(healthy := was) else back;
      ([aimed, pointed, back, checked, checked.(previous := w.previous)], if restores then Restored else RestoreFailed)
  }

  /** Every crash point of a cutover leaves the last healthy archive reachable
      exactly when the cutover starts from that archive. */
  lemma CutoverCrashSafe(w: World, name: string, works: bool, restores: bool)
    requires w.plist.None? && w.current.Some? && Recoverable(w) && name in w.disk && w.current.value in w.disk
    ensures AllRecoverable(CutoverRun(w, name, works, restores).0) <==> w.current == Some(w.healthy)
  {
    var trace := CutoverRun(w, name, works, restores).0;
    if w.current != Some(w.healthy) {
      assert !Recoverable(trace[0]);
    }
  }

  /** From any start a failed cutover leaves both links as they were; when the
      old server came back it is now the healthy one. A healthy one swaps them. */
  lemma CutoverEnds(w: World, name: string, works: bool, restores: bool)
    requires w.plist.None? && w.current.Some?
    ensures var (trace, outcome) := CutoverRun(w, name, works, restores);
            var n := Last(w, trace);
            && (outcome.Switched? <==> works) && (outcome.RestoreFailed? <==> !works && !restores)
            && (works ==> n == w.(current := Some(name), previous := w.current, healthy := name))
            && (!works ==> n == w.(healthy := if restores then w.current.value else w.healthy))
  {
  }

  // ----- rollback -----

  function RollbackRun(w: World, works: bool, restores: bool): (seq<World>, Option<Outcome>) {
    if w.previous.None? || w.plist.Some? || w.current.None? || w.current.value !in w.disk || w.previous.value !in w.disk
    then ([], None)
    else
      var running := w.disk[w.current.value];
      var (trace, outcome) := CutoverRun(w, w.previous.value, works, restores);
      if outcome.Switched? then (trace + [Last(w, trace).(skip := Some(running))], Some(outcome))
      else (trace, Some(outcome))
  }

  /** From any state that can be recovered, a rollback is safe at every crash
      point exactly when it does nothing or starts from the last healthy
      archive; from a settled service it ends settled. */
  lemma RollbackCrashSafe(w: World, works: bool, restores: bool)
    requires Recoverable(w)
    ensures AllRecoverable(RollbackRun(w, works, restores).0) <==>
            RollbackRun(w, works, restores).1.None? || w.current == Some(w.healthy)
    ensures Settled(w) ==> Settled(Last(w, RollbackRun(w, works, restores).0))
  {
    if RollbackRun(w, works, restores).1.Some? {
      CutoverCrashSafe(w, w.previous.value, works, restores);
      var trace := CutoverRun(w, w.previous.value, works, restores).0;
      assert trace <= RollbackRun(w, works, restores).0;
      if w.current != Some(w.healthy) {
        assert !Recoverable(trace[0]);
      }
    }
  }

  /** Two healthy rollbacks return both links to where they started. */
  lemma RollbackTwice(w: World)
    requires Settled(w) && w.plist.None? && w.previous.Some? && w.previous.value in w.disk
    ensures var once := Last(w, RollbackRun(w, true, true).0);
            var twice := Last(once, RollbackRun(once, true, true).0);
            && RollbackRun(w, true, true).1 == Some(Switched) && RollbackRun(once, true, true).1 == Some(Switched)
            && once.current == w.previous && once.previous == w.current
            && twice == w.(skip := Some(w.disk[w.previous.value]))
  {
  }

  /** A rollback that starts where a cutover crashed, with the new archive not
      yet healthy, passes a state that names the last healthy archive nowhere. */
  lemma RollbackAfterCrash(w: World, name: string, works: bool, restores: bool)
    requires Settled(w) && w.plist.None? && name in w.disk && name != w.healthy
    ensures var crashed := CutoverRun(w, name, works, restores).0[1];
            var trace := RollbackRun(crashed, works, restores).0;
            Recoverable(crashed) && trace != [] && !Recoverable(trace[0])
  {
  }

  // ----- upgrade -----

  const PREFIX := "grasshopper-server-"

  /** Which steps of an upgrade succeed. */
  datatype Luck = Luck(fetched: bool, backedUp: bool, adoptPlist: bool, adoptHealthy: bool, works: bool, restores: bool)

  /** The archive folder for a release; a folder that does not report the
      release is replaced. */
  function FetchRun(w: World, target: string, ok: bool): (trace: seq<World>)
    ensures trace != [] && Last(w, trace) == w.(disk := Last(w, trace).disk)
  {
    var folder := PREFIX + target;
    if folder in w.disk && w.disk[folder] == target then [w]
    else if !ok then [w]
    else [w.(disk := w.disk - {folder}), w.(disk := w.disk[folder := target])]
  }

  function Fetched(w: World, target: string, ok: bool): bool {
    ok || (PREFIX + target in w.disk && w.disk[PREFIX + target] == target)
  }

  /** Moves a service whose plist names a folder onto the current link. */
  function AdoptRun(w: World, plistOk: bool, healthyThere: bool): (r: (seq<World>, bool))
    requires Root(w).Some?
    ensures r.0 != [] && (r.1 ==> Last(w, r.0).plist.None? && Last(w, r.0).current.Some?)
  {
    if w.plist.None? then ([w], true)
    else
      var linked := w.(current := w.plist);
      if !plistOk then ([linked], false)
      else
        var moved := linked.(plist := None);
        if healthyThere then ([linked, moved, moved.(healthy := w.plist.value)], true)
        else ([linked, moved, moved.(plist := w.plist)], false)
  }

  predicate Prunable(w: World, folder: string) {
    && PREFIX <= folder && ParseVersion(folder[|PREFIX|..]).Some?
    && w.current != Some(folder) && w.previous != Some(folder)
  }

  /** What pruneArchives leaves on disk. */
  function Pruned(w: World): World {
    w.(disk := map folder | folder in w.disk && !Prunable(w, folder) :: w.disk[folder])
  }

  /** Folders go one at a time; a crash can leave any part of them. */
  predicate PartlyPruned(w: World, n: World) {
    && n == w.(disk := n.disk)
    && (forall f | f in n.disk :: f in w.disk && n.disk[f] == w.disk[f])
    && forall f | f in Pruned(w).disk :: f in n.disk
  }

  lemma PartlyPrunedSafe(w: World, n: World)
    requires Recoverable(w) && w.plist.None? && PartlyPruned(w, n)
    ensures Recoverable(n) && (Settled(w) ==> Settled(n))
  {
    hide ParseVersion;
    assert !Prunable(w, w.healthy);
  }

  function SkipAfter(w: World, wanted: seq<int>): Option<string>
    requires |wanted| == 3
  {
    if w.skip.None? then None
    else
      var skipped := ParseVersion(w.skip.value);
      if skipped.Some? && !Older(wanted, skipped.value) then None else w.skip
  }

  datatype Report = Unreadable | InvalidRelease | AlreadyRunning | NotNewer | Skipping | FetchFailed | BackupFailed
                  | AdoptFailed | CutoverFailed | Upgraded

  /** What an upgrade decides before it changes anything. */
  function Verdict(w: World, target: string, named: bool): Option<Report> {
    if Root(w).None? || Root(w).value !in w.disk then Some(Unreadable)
    else if ParseVersion(target).None? then Some(InvalidRelease)
    else
      var running := w.disk[Root(w).value];
      var have, wanted := ParseVersion(running), ParseVersion(target);
      if target == running then Some(AlreadyRunning)
      else if named then None
      else if have.Some? && !Older(have.value, wanted.value) then Some(NotNewer)
      else if w.skip == Some(target) then Some(Skipping)
      else None
  }

  /** The states from the cutover on, once the archive is on disk and the
      service runs from the current link. */
  function SwitchRun(w: World, target: string, luck: Luck): (seq<World>, Report)
    requires w.plist.None? && w.current.Some? && ParseVersion(target).Some?
  {
    var (cut, outcome) := CutoverRun(w, PREFIX + target, luck.works, luck.restores);
    var n := Last(w, cut);
    if !outcome.Switched? then (cut + [n.(skip := Some(target))], CutoverFailed)
    else
      var cleared := n.(skip := SkipAfter(n, ParseVersion(target).value));
      (cut + [cleared, Pruned(cleared)], Upgraded)
  }

  function UpgradeRun(w: World, target: string, named: bool, luck: Luck): (seq<World>, Report) {
    match Verdict(w, target, named)
    case Some(report) => ([], report)
    case None =>
      var fetch := FetchRun(w, target, luck.fetched);
      if !Fetched(w, target, luck.fetched) then (fetch, FetchFailed)
      else if !luck.backedUp then (fetch, BackupFailed)
      else
        var stocked := Last(w, fetch);
        var (adopt, adopted) := AdoptRun(stocked, luck.adoptPlist, luck.adoptHealthy);
        if !adopted then (fetch + adopt, AdoptFailed)
        else
          var ready := Last(stocked, adopt);
          var (rest, report) := SwitchRun(ready, target, luck);
          (fetch + adopt + rest, report)
  }

  /** The last healthy archive is not the folder a download would replace. */
  predicate TargetApart(w: World, target: string) {
    PREFIX + target != w.healthy
  }

  /** A release folder reports the release it is named for, which is how every
      upgrade leaves it; then no upgrade replaces the folder it runs from. */
  lemma OwnFolderApart(w: World, target: string, named: bool)
    requires Settled(w) && (PREFIX <= w.healthy ==> w.healthy == PREFIX + w.disk[w.healthy])
    requires Verdict(w, target, named).None?
    ensures TargetApart(w, target)
  {
    assert (PREFIX + target)[|PREFIX|..] == target;
    assert (PREFIX + w.disk[w.healthy])[|PREFIX|..] == w.disk[w.healthy];
  }


  /** Fetching does not take away the last healthy archive. */
  predicate FetchKeeps(w: World, target: string, ok: bool) {
    TargetApart(w, target) || !ok || (w.healthy in w.disk && w.disk[w.healthy] == target)
  }

  lemma FetchCrashSafe(w: World, target: string, ok: bool)
    requires Recoverable(w)
    ensures AllRecoverable(FetchRun(w, target, ok)) <==> FetchKeeps(w, target, ok)
    ensures var n := Last(w, FetchRun(w, target, ok));
            && n == w.(disk := n.disk) && Recoverable(n) && (Settled(n) <==> Settled(w))
            && (forall f | f in w.disk :: f in n.disk)
            && (Fetched(w, target, ok) ==> PREFIX + target in n.disk && n.disk[PREFIX + target] == target)
  {
    var trace := FetchRun(w, target, ok);
    if !FetchKeeps(w, target, ok) {
      assert !Recoverable(trace[0]);
    }
  }

  lemma AdoptSafe(w: World, plistOk: bool, healthyThere: bool)
    requires Settled(w)
    ensures var (trace, adopted) := AdoptRun(w, plistOk, healthyThere);
            var n := Last(w, trace);
            && AllRecoverable(trace) && Settled(n) && n.disk == w.disk && n.skip == w.skip && n.healthy == w.healthy
            && Root(n) == Root(w) && n.previous == w.previous && (adopted ==> n.plist.None?)
  {
  }

  lemma SwitchSafe(w: World, target: string, luck: Luck)
    requires Settled(w) && w.plist.None? && PREFIX + target in w.disk && w.disk[PREFIX + target] == target
    requires ParseVersion(target).Some?
    ensures var (trace, report) := SwitchRun(w, target, luck);
            var n := Last(w, trace);
            && AllRecoverable(trace) && Settled(n) && n.plist.None?
            && (report.Upgraded? ==> n.current == Some(PREFIX + target) && n.previous == w.current
                                     && n.disk[PREFIX + target] == target)
            && (report.Upgraded? <==> luck.works)
            && (!report.Upgraded? ==> report.CutoverFailed? && n == w.(skip := Some(target)))
            && (w.current.value in n.disk && n.disk[w.current.value] == w.disk[w.current.value])
  {
    hide ParseVersion, Older, SkipAfter;
    CutoverCrashSafe(w, PREFIX + target, luck.works, luck.restores);
    CutoverEnds(w, PREFIX + target, luck.works, luck.restores);
  }

  /** Moving onto the current link, and the cutover after it, start with the
      last healthy archive still named: by the service itself, or by previous
      while the plist names a folder. */
  predicate AdoptKeeps(w: World) {
    Settled(w) || (w.plist.Some? && w.previous == Some(w.healthy))
  }

  lemma AdoptCrashSafe(w: World, plistOk: bool, healthyThere: bool)
    requires Recoverable(w) && Root(w).Some? && Root(w).value in w.disk
    ensures var (trace, adopted) := AdoptRun(w, plistOk, healthyThere);
            var n := Last(w, trace);
            && (AllRecoverable(trace) <==> w.plist.None? || AdoptKeeps(w))
            && (w.plist.None? ==> adopted && n == w)
            && (adopted ==> Root(n) == Root(w) && n.disk == w.disk)
            && (adopted && AdoptKeeps(w) ==> Settled(n) && n.plist.None?)
  {
    var trace := AdoptRun(w, plistOk, healthyThere).0;
    if w.plist.Some? && !AdoptKeeps(w) {
      assert !Recoverable(trace[0]);
    }
  }

  lemma SwitchCrashSafe(w: World, target: string, luck: Luck)
    requires Recoverable(w) && w.plist.None? && w.current.Some? && w.current.value in w.disk
    requires PREFIX + target in w.disk && w.disk[PREFIX + target] == target && ParseVersion(target).Some?
    ensures AllRecoverable(SwitchRun(w, target, luck).0) <==> Settled(w)
  {
    hide ParseVersion, Older, SkipAfter, AllRecoverable;
    if Settled(w) {
      SwitchSafe(w, target, luck);
    } else {
      CutoverCrashSafe(w, PREFIX + target, luck.works, luck.restores);
      PrefixOf(CutoverRun(w, PREFIX + target, luck.works, luck.restores).0, SwitchRun(w, target, luck).0);
    }
  }

  lemma PrefixRecoverable(a: seq<World>, b: seq<World>)
    requires a <= b && AllRecoverable(b)
    ensures AllRecoverable(a)
  {
    forall i | 0 <= i < |a| ensures Recoverable(a[i]) {
      assert a[i] == b[i];
    }
  }

  /** What an upgrade needs of the state it starts in. */
  predicate UpgradeKeeps(w: World, target: string, named: bool, luck: Luck) {
    || Verdict(w, target, named).Some?
    || (FetchKeeps(w, target, luck.fetched)
        && (Fetched(w, target, luck.fetched) && luck.backedUp ==> AdoptKeeps(w)))
  }

  /** From any state that can be recovered, whether a crash left it or not, the
      last healthy archive is reachable at every crash point of an upgrade
      exactly when the download does not replace that archive and, once there
      is a cutover to make, the service runs it by name or previous names it. */
  lemma UpgradeCrashSafe(w: World, target: string, named: bool, luck: Luck)
    requires Recoverable(w)
    ensures AllRecoverable(UpgradeRun(w, target, named, luck).0) <==> UpgradeKeeps(w, target, named, luck)
  {
    hide ParseVersion, Older, FetchRun, AdoptRun, SwitchRun, AllRecoverable, Recoverable, Settled, Fetched, Verdict;
    hide FetchKeeps;
    var trace := UpgradeRun(w, target, named, luck).0;
    if Verdict(w, target, named).Some? {
      NothingRecorded();
    } else {
      VerdictParsed(w, target, named);
      var fetch := FetchRun(w, target, luck.fetched);
      FetchCrashSafe(w, target, luck.fetched);
      PrefixOf(fetch, trace);
      if FetchKeeps(w, target, luck.fetched) && Fetched(w, target, luck.fetched) && luck.backedUp {
        CutoverPartSafe(w, target, named, luck);
      }
    }
  }

  lemma PrefixOf(a: seq<World>, b: seq<World>)
    ensures a <= b && !AllRecoverable(a) ==> !AllRecoverable(b)
  {
    hide AllRecoverable;
    if a <= b && AllRecoverable(b) {
      PrefixRecoverable(a, b);
    }
  }

  lemma CutoverPartSafe(w: World, target: string, named: bool, luck: Luck)
    requires Recoverable(w) && Verdict(w, target, named).None? && FetchKeeps(w, target, luck.fetched)
    requires Fetched(w, target, luck.fetched) && luck.backedUp
    ensures AllRecoverable(UpgradeRun(w, target, named, luck).0) <==> AdoptKeeps(w)
  {
    hide ParseVersion, Older, FetchRun, AdoptRun, SwitchRun, AllRecoverable, Recoverable, Settled, Fetched, Verdict;
    hide FetchKeeps;
    VerdictParsed(w, target, named);
    FetchCrashSafe(w, target, luck.fetched);
    var fetch := FetchRun(w, target, luck.fetched);
    var stocked := Last(w, fetch);
    AdoptCrashSafe(stocked, luck.adoptPlist, luck.adoptHealthy);
    var (adopt, adopted) := AdoptRun(stocked, luck.adoptPlist, luck.adoptHealthy);
    PartsRecoverable(fetch, adopt);
    if adopted {
      var ready := Last(stocked, adopt);
      if AdoptKeeps(w) || w.plist.None? {
        assert Recoverable(ready) by { SettledRecoverable(ready); }
        SwitchCrashSafe(ready, target, luck);
      }
      PartsRecoverable(fetch + adopt, SwitchRun(ready, target, luck).0);
    }
  }

  lemma PartsRecoverable(a: seq<World>, b: seq<World>)
    ensures AllRecoverable(a + b) <==> AllRecoverable(a) && AllRecoverable(b)
  {
    if AllRecoverable(a + b) {
      assert forall i | 0 <= i < |a| :: (a + b)[i] == a[i];
      assert forall i | 0 <= i < |b| :: (a + b)[|a| + i] == b[i];
    }
  }

  lemma SettledRecoverable(w: World)
    ensures Settled(w) ==> Recoverable(w)
  {
  }

  /** From a settled service that comes to this: the download does not replace
      the very folder the service runs from. */
  lemma SettledUpgradeSafe(w: World, target: string, named: bool, luck: Luck)
    requires Settled(w)
    ensures AllRecoverable(UpgradeRun(w, target, named, luck).0) <==> !Replaces(w, target, named, luck)
  {
    hide ParseVersion, Older, UpgradeRun, Fetched;
    UpgradeCrashSafe(w, target, named, luck);
  }

  /** The upgrade downloads over the folder the service runs from. */
  predicate Replaces(w: World, target: string, named: bool, luck: Luck) {
    Verdict(w, target, named).None? && !TargetApart(w, target) && luck.fetched
  }

  /** That exception occurs: a settled service whose folder, named for a release,
      reports another version, told by name to install the release. */
  lemma ReplacesItsOwnFolder(luck: Luck)
    requires luck.fetched
    ensures var folder := PREFIX + "1.0.0";
            var w := World(None, Some(folder), None, map[folder := "x"], None, folder);
            && Settled(w) && Verdict(w, "1.0.0", true).None? && !TargetApart(w, "1.0.0")
            && !AllRecoverable(UpgradeRun(w, "1.0.0", true, luck).0)
  {
    hide ParseVersion, UpgradeRun;
    var folder := PREFIX + "1.0.0";
    var w := World(None, Some(folder), None, map[folder := "x"], None, folder);
    Parses(1, 0, 0, "1.0.0");
    SettledUpgradeSafe(w, "1.0.0", true, luck);
  }

  lemma Parses(a: int, b: int, c: int, text: string)
    requires 0 <= a <= MAX_INT && 0 <= b <= MAX_INT && 0 <= c <= MAX_INT && text == Render([a, b, c])
    ensures ParseVersion(text) == Some([a, b, c])
  {
    hide ParseVersion, Render;
    ParsesRendering(text, [a, b, c]);
  }

  const OLD := PREFIX + "1.0.0"
  const NEW := PREFIX + "1.1.0"
  const SERVED := World(None, Some(OLD), None, map[OLD := "1.0.0"], None, OLD)
  const STOCKED := SERVED.(disk := map[OLD := "1.0.0", NEW := "1.1.0"])
  const CRASHED := STOCKED.(current := Some(NEW), previous := Some(OLD))

  /** A crash can leave a state from which the next upgrade is not safe: 1.0.0
      is being upgraded to 1.1.0 and the crash comes with current moved; then
      an unnamed upgrade to 1.2.0, which downloads over no folder in use,
      passes a state that names 1.0.0 nowhere. */
  lemma UpgradeAfterCrash(luck: Luck, next: Luck)
    requires luck.fetched && luck.backedUp && next.fetched && next.backedUp
    ensures Settled(SERVED) && CRASHED in UpgradeRun(SERVED, "1.1.0", false, luck).0 && Recoverable(CRASHED)
    ensures Verdict(CRASHED, "1.2.0", false).None? && TargetApart(CRASHED, "1.2.0")
    ensures !AllRecoverable(UpgradeRun(CRASHED, "1.2.0", false, next).0)
  {
    hide ParseVersion, AllRecoverable;
    Parses(1, 0, 0, "1.0.0");
    Parses(1, 1, 0, "1.1.0");
    Parses(1, 2, 0, "1.2.0");
    FoldersDiffer();
    CrashPassed(luck);
    UpgradeCrashSafe(CRASHED, "1.2.0", false, next);
  }

  lemma FoldersDiffer()
    ensures OLD != NEW && PREFIX + "1.2.0" != OLD && PREFIX + "1.2.0" != NEW
  {
    assert OLD[|PREFIX|..] == "1.0.0" && NEW[|PREFIX|..] == "1.1.0" && (PREFIX + "1.2.0")[|PREFIX|..] == "1.2.0";
    assert "1.0.0"[2] == '0' && "1.1.0"[2] == '1' && "1.2.0"[2] == '2';
  }

  lemma CrashPassed(luck: Luck)
    requires luck.fetched && luck.backedUp && OLD != NEW
    requires ParseVersion("1.0.0") == Some([1, 0, 0]) && ParseVersion("1.1.0") == Some([1, 1, 0])
    ensures CRASHED in UpgradeRun(SERVED, "1.1.0", false, luck).0
  {
    hide ParseVersion, SkipAfter, Pruned;
    assert Verdict(SERVED, "1.1.0", false).None? by { assert "1.0.0"[2] == '0' && "1.1.0"[2] == '1'; }
    var fetch := FetchRun(SERVED, "1.1.0", true);
    assert SERVED.disk[NEW := "1.1.0"] == STOCKED.disk;
    assert Last(SERVED, fetch) == STOCKED && AdoptRun(STOCKED, luck.adoptPlist, luck.adoptHealthy) == ([STOCKED], true);
    var cut := CutoverRun(STOCKED, NEW, luck.works, luck.restores).0;
    assert cut[1] == CRASHED;
    var rest := SwitchRun(STOCKED, "1.1.0", luck).0;
    assert rest[1] == CRASHED;
    assert (fetch + [STOCKED] + rest)[|fetch| + 2] == CRASHED;
  }

  lemma NothingRecorded()
    ensures AllRecoverable([])
  {
  }

  lemma VerdictParsed(w: World, target: string, named: bool)
    requires Verdict(w, target, named).None?
    ensures ParseVersion(target).Some? && Root(w).Some? && Root(w).value in w.disk
  {
  }

  lemma SwitchTraced(w: World, target: string, luck: Luck)
    requires w.plist.None? && w.current.Some? && ParseVersion(target).Some?
    ensures SwitchRun(w, target, luck).0 != []
  {
  }

  // ----- where an upgrade ends -----

  function Running(w: World): Option<string> {
    if Root(w).Some? && Root(w).value in w.disk then Some(w.disk[Root(w).value]) else None
  }

  /** Where an upgrade ends: settled, on the target when it worked or replaced
      the running folder, and otherwise on the version it started from. */
  lemma UpgradeEnds(w: World, target: string, named: bool, luck: Luck)
    requires Settled(w)
    ensures var (trace, report) := UpgradeRun(w, target, named, luck);
            var n := Last(w, trace);
            && Settled(n)
            && Running(n) == (if report.Upgraded? || Replaces(w, target, named, luck) then Some(target) else Running(w))
            && (report.Upgraded? ==> n.plist.None? && n.current == Some(PREFIX + target) && n.previous == Root(w))
            && (!report.Upgraded? ==> n.healthy == w.healthy)
            && (report.CutoverFailed? ==> n.skip == Some(target) && n.previous == w.previous)
            && (!report.Upgraded? && !report.CutoverFailed? ==> n.skip == w.skip)
  {
    hide ParseVersion, Older, FetchRun, AdoptRun, SwitchRun, Fetched, Verdict;
    if Verdict(w, target, named).None? {
      VerdictParsed(w, target, named);
      var fetch := FetchRun(w, target, luck.fetched);
      FetchEnds(w, target, named, luck.fetched);
      if Fetched(w, target, luck.fetched) && luck.backedUp {
        var stocked := Last(w, fetch);
        AdoptSafe(stocked, luck.adoptPlist, luck.adoptHealthy);
        var (adopt, adopted) := AdoptRun(stocked, luck.adoptPlist, luck.adoptHealthy);
        if adopted {
          SwitchSafe(Last(stocked, adopt), target, luck);
          SwitchTraced(Last(stocked, adopt), target, luck);
        }
      }
    } else {
      VerdictReports(w, target, named);
    }
  }

  /** Fetching leaves the service settled and its folder as it was, unless that
      is the folder replaced. */
  lemma FetchEnds(w: World, target: string, named: bool, ok: bool)
    requires Settled(w) && Verdict(w, target, named).None?
    ensures var n := Last(w, FetchRun(w, target, ok));
            && n == w.(disk := n.disk) && Settled(n)
            && n.disk[w.healthy] == (if ok && PREFIX + target == w.healthy then target else w.disk[w.healthy])
            && (Fetched(w, target, ok) ==> PREFIX + target in n.disk && n.disk[PREFIX + target] == target)
            && (!Fetched(w, target, ok) ==> !ok)
  {
    hide ParseVersion, Older;
  }

  lemma VerdictReports(w: World, target: string, named: bool)
    requires Verdict(w, target, named).Some?
    ensures !Verdict(w, target, named).value.Upgraded? && !Verdict(w, target, named).value.CutoverFailed?
  {
  }

  // ----- nightly upgrades -----

  /** What one upgrade can leave behind: its last state, any state a crash cut
      it off in, or a part of its pruning. */
  predicate Leaves(w: World, target: string, named: bool, luck: Luck, n: World) {
    var (trace, report) := UpgradeRun(w, target, named, luck);
    || n == Last(w, trace) || n in trace
    || (report.Upgraded? && |trace| >= 2 && PartlyPruned(trace[|trace| - 2], n))
  }

  lemma FetchStates(w: World, target: string, ok: bool, n: World)
    requires Running(w).Some? && n in FetchRun(w, target, ok)
    ensures n == w.(disk := n.disk)
    ensures Running(n) == Running(w) || Running(n) == Some(target)
            || (Running(n).None? && PREFIX + target == Root(w).value)
    ensures n == Last(w, FetchRun(w, target, ok)) ==> Running(n).Some?
  {
  }

  lemma AdoptStates(w: World, plistOk: bool, healthyThere: bool, n: World)
    requires Running(w).Some? && n in AdoptRun(w, plistOk, healthyThere).0
    ensures Running(n) == Running(w)
  {
  }

  lemma CutoverStates(w: World, name: string, works: bool, restores: bool, n: World)
    requires w.plist.None? && w.current.Some? && n in CutoverRun(w, name, works, restores).0
    ensures n.disk == w.disk && n.plist.None? && (n.current == w.current || n.current == Some(name))
    ensures works && n == Last(w, CutoverRun(w, name, works, restores).0) ==> n.current == Some(name)
  {
  }

  /** Pruning, even in part, keeps the folder the service runs from. */
  lemma PrunedRuns(w: World, n: World)
    requires w.plist.None? && Running(w).Some? && PartlyPruned(w, n)
    ensures Running(n) == Running(w)
  {
    hide ParseVersion;
    assert !Prunable(w, w.current.value);
  }

  lemma SwitchStates(w: World, target: string, luck: Luck, n: World)
    requires w.plist.None? && Running(w).Some? && ParseVersion(target).Some?
    requires PREFIX + target in w.disk && w.disk[PREFIX + target] == target
    requires var (trace, report) := SwitchRun(w, target, luck);
             n in trace || (report.Upgraded? && |trace| >= 2 && PartlyPruned(trace[|trace| - 2], n))
    ensures Running(n) == Running(w) || Running(n) == Some(target)
  {
    hide ParseVersion, Older, SkipAfter, PartlyPruned, CutoverRun;
    var (cut, outcome) := CutoverRun(w, PREFIX + target, luck.works, luck.restores);
    CutShape(w, target, luck);
    var (trace, report) := SwitchRun(w, target, luck);
    if n in cut {
      CutoverStates(w, PREFIX + target, luck.works, luck.restores, n);
    } else {
      var last := Last(w, cut);
      CutoverStates(w, PREFIX + target, luck.works, luck.restores, last);
      if report.Upgraded? {
        var cleared := last.(skip := SkipAfter(last, ParseVersion(target).value));
        assert trace == cut + [cleared, Pruned(cleared)];
        assert PartlyPruned(cleared, Pruned(cleared)) by { PrunedIsPart(cleared); }
        if n != cleared {
          PrunedRuns(cleared, n);
        }
      }
    }
  }

  lemma CutShape(w: World, target: string, luck: Luck)
    requires w.plist.None? && w.current.Some?
    ensures var (cut, outcome) := CutoverRun(w, PREFIX + target, luck.works, luck.restores);
            cut != [] && (outcome.Switched? <==> luck.works)
  {
  }

  lemma PrunedIsPart(w: World)
    ensures PartlyPruned(w, Pruned(w))
  {
    hide Prunable;
  }

  /** Whatever an upgrade leaves, at its end or where a crash cut it off, runs
      the version it started from or the one it was to install; only while it
      replaces the folder the service runs from is there neither. */
  lemma LeavesRunning(w: World, target: string, named: bool, luck: Luck, n: World)
    requires Running(w).Some? && Leaves(w, target, named, luck, n)
    ensures Running(n) == Running(w) || (Verdict(w, target, named).None? &&
              (Running(n) == Some(target) || (Running(n).None? && PREFIX + target == Root(w).value)))
    ensures n == Last(w, UpgradeRun(w, target, named, luck).0) ==> Running(n).Some?
  {
    hide ParseVersion, Older, FetchRun, AdoptRun, SwitchRun, Fetched, Verdict, PartlyPruned;
    if Verdict(w, target, named).None? {
      VerdictParsed(w, target, named);
      var fetch := FetchRun(w, target, luck.fetched);
      var stocked := Last(w, fetch);
      FetchStates(w, target, luck.fetched, stocked);
      if n in fetch {
        FetchStates(w, target, luck.fetched, n);
      }
      if Fetched(w, target, luck.fetched) && luck.backedUp {
        FetchedThere(w, target, luck.fetched);
        var (adopt, adopted) := AdoptRun(stocked, luck.adoptPlist, luck.adoptHealthy);
        var ready := Last(stocked, adopt);
        AdoptStates(stocked, luck.adoptPlist, luck.adoptHealthy, ready);
        AdoptedDisk(stocked, luck.adoptPlist, luck.adoptHealthy);
        if n in adopt {
          AdoptStates(stocked, luck.adoptPlist, luck.adoptHealthy, n);
        }
        if adopted {
          SwitchTraced(ready, target, luck);
          var (rest, report) := SwitchRun(ready, target, luck);
          SwitchLong(ready, target, luck);
          var trace := fetch + adopt + rest;
          assert report.Upgraded? ==> trace[|trace| - 2] == rest[|rest| - 2];
          assert trace[|trace| - 1] == rest[|rest| - 1];
          assert rest[|rest| - 1] in rest;
          SwitchStates(ready, target, luck, rest[|rest| - 1]);
          if n !in fetch + adopt {
            assert n in trace ==> n in rest;
            SwitchStates(ready, target, luck, n);
          }
        }
      }
    } else {
      VerdictReports(w, target, named);
    }
  }

  lemma SwitchLong(w: World, target: string, luck: Luck)
    requires w.plist.None? && w.current.Some? && ParseVersion(target).Some?
    ensures |SwitchRun(w, target, luck).0| >= 2
  {
    hide ParseVersion, SkipAfter, Pruned;
  }

  lemma FetchedThere(w: World, target: string, ok: bool)
    requires Fetched(w, target, ok)
    ensures var n := Last(w, FetchRun(w, target, ok)); PREFIX + target in n.disk && n.disk[PREFIX + target] == target
  {
  }

  lemma AdoptedDisk(w: World, plistOk: bool, healthyThere: bool)
    requires Root(w).Some?
    ensures Last(w, AdoptRun(w, plistOk, healthyThere).0).disk == w.disk
  {
  }

  /** An unnamed upgrade of a release, crashed or not, leaves the running
      version alone or raises it, and never to the recorded skip. */
  lemma NightlyRaises(w: World, target: string, luck: Luck, n: World)
    requires Running(w).Some? && ParseVersion(Running(w).value).Some? && Leaves(w, target, false, luck, n)
    ensures Running(n).Some? && Running(n) != Running(w) ==>
              && ParseVersion(Running(n).value).Some? && Running(n) != w.skip
              && Older(ParseVersion(Running(w).value).value, ParseVersion(Running(n).value).value)
    ensures Running(n).None? ==> PREFIX + target == Root(w).value && n != Last(w, UpgradeRun(w, target, false, luck).0)
  {
    hide ParseVersion, UpgradeRun, Leaves;
    LeavesRunning(w, target, false, luck, n);
  }

  /** With no running version to read, nothing is changed. */
  lemma UnreadableStays(w: World, target: string, luck: Luck, n: World)
    requires Running(w).None? && Leaves(w, target, false, luck, n)
    ensures n == w
  {
  }

  datatype Night = Night(target: string, luck: Luck)

  /** Each night starts from what the one before left, crashed or not. */
  predicate Nights(worlds: seq<World>, nights: seq<Night>) {
    && |worlds| == |nights| + 1
    && forall i | 0 <= i < |nights| :: Leaves(worlds[i], nights[i].target, false, nights[i].luck, worlds[i + 1])
  }

  lemma OlderChain(a: seq<int>, b: seq<int>, c: seq<int>)
    requires |a| == |b| == |c| == 3
    ensures !Older(b, a) && !Older(c, b) ==> !Older(c, a)
    ensures Older(a, b) ==> !Older(b, a)
    ensures !Older(a, a)
  {
  }

  /** Over any run of nights, each possibly crashing part-way, the running
      release never goes down. */
  lemma {:induction false} NightsRaise(worlds: seq<World>, nights: seq<Night>, k: nat)
    requires Nights(worlds, nights) && k <= |nights|
    requires Running(worlds[0]).Some? && ParseVersion(Running(worlds[0]).value).Some?
    ensures Running(worlds[k]).Some? ==>
              && ParseVersion(Running(worlds[k]).value).Some?
              && !Older(ParseVersion(Running(worlds[k]).value).value, ParseVersion(Running(worlds[0]).value).value)
  {
    hide ParseVersion, Leaves, Older, Running;
    var a := ParseVersion(Running(worlds[0]).value).value;
    OlderChain(a, a, a);
    if k > 0 {
      NightsRaise(worlds, nights, k - 1);
      var w, n := worlds[k - 1], worlds[k];
      if Running(w).None? {
        UnreadableStays(w, nights[k - 1].target, nights[k - 1].luck, n);
      } else {
        NightlyRaises(w, nights[k - 1].target, nights[k - 1].luck, n);
        if Running(n).Some? {
          var b, c := ParseVersion(Running(w).value).value, ParseVersion(Running(n).value).value;
          OlderChain(a, b, c);
          OlderChain(b, c, c);
        }
      }
    }
  }

  // ----- runs of upgrades and rollbacks -----

  datatype Operation =
    | Upgrade(target: string, named: bool, luck: Luck)
    | Rollback(works: bool, restores: bool)

  function StatesOf(w: World, op: Operation): seq<World> {
    match op
    case Upgrade(target, named, luck) => UpgradeRun(w, target, named, luck).0
    case Rollback(works, restores) => RollbackRun(w, works, restores).0
  }

  /** What an operation can leave behind, crashed or not. */
  predicate CanLeave(w: World, op: Operation, n: World) {
    match op
    case Upgrade(target, named, luck) => Leaves(w, target, named, luck, n)
    case Rollback(works, restores) => n == Last(w, StatesOf(w, op)) || n in StatesOf(w, op)
  }

  /** What an operation needs of the state it starts in. */
  predicate Keeps(w: World, op: Operation) {
    match op
    case Upgrade(target, named, luck) => UpgradeKeeps(w, target, named, luck)
    case Rollback(works, restores) => RollbackRun(w, works, restores).1.None? || w.current == Some(w.healthy)
  }

  predicate Operations(worlds: seq<World>, ops: seq<Operation>) {
    && |worlds| == |ops| + 1
    && forall i | 0 <= i < |ops| :: CanLeave(worlds[i], ops[i], worlds[i + 1])
  }

  lemma OperationCrashSafe(w: World, op: Operation)
    requires Recoverable(w)
    ensures AllRecoverable(StatesOf(w, op)) <==> Keeps(w, op)
  {
    hide Recoverable, AllRecoverable, UpgradeRun, UpgradeKeeps, RollbackRun;
    match op
    case Upgrade(target, named, luck) => UpgradeCrashSafe(w, target, named, luck);
    case Rollback(works, restores) => RollbackCrashSafe(w, works, restores);
  }

  /** The state an upgrade prunes from runs by its current link. */
  lemma PrunesUnadopted(w: World, target: string, named: bool, luck: Luck)
    ensures var (trace, report) := UpgradeRun(w, target, named, luck);
            report.Upgraded? && |trace| >= 2 ==> trace[|trace| - 2].plist.None?
  {
    hide ParseVersion, Older, FetchRun, AdoptRun, SwitchRun, Fetched, Verdict;
    if Verdict(w, target, named).None? {
      VerdictParsed(w, target, named);
      var fetch := FetchRun(w, target, luck.fetched);
      var stocked := Last(w, fetch);
      if Fetched(w, target, luck.fetched) && luck.backedUp {
        FetchedThere(w, target, luck.fetched);
        var (adopt, adopted) := AdoptRun(stocked, luck.adoptPlist, luck.adoptHealthy);
        if adopted {
          var ready := Last(stocked, adopt);
          SwitchUnadopted(ready, target, luck);
          var rest := SwitchRun(ready, target, luck).0;
          var trace := fetch + adopt + rest;
          assert trace[|trace| - 2] == rest[|rest| - 2];
        }
      }
    } else {
      VerdictReports(w, target, named);
    }
  }

  lemma SwitchUnadopted(w: World, target: string, luck: Luck)
    requires w.plist.None? && w.current.Some? && ParseVersion(target).Some?
    ensures var (trace, report) := SwitchRun(w, target, luck);
            |trace| >= 2 && (report.Upgraded? ==> trace[|trace| - 2].plist.None?)
  {
    hide ParseVersion, SkipAfter, Pruned;
  }

  lemma LeftRecoverable(w: World, op: Operation, n: World)
    requires Recoverable(w) && AllRecoverable(StatesOf(w, op)) && CanLeave(w, op, n)
    ensures Recoverable(n)
  {
    hide Recoverable, UpgradeRun, RollbackRun, PartlyPruned;
    if op.Upgrade? && n != Last(w, StatesOf(w, op)) && n !in StatesOf(w, op) {
      var trace := StatesOf(w, op);
      PrunesUnadopted(w, op.target, op.named, op.luck);
      PartlyPrunedSafe(trace[|trace| - 2], n);
    }
  }

  /** Over any run of upgrades and rollbacks, each possibly crashing, the last
      healthy archive is reachable in every state passed up to an operation
      exactly when each until then found what it needs. */
  lemma {:induction false} RunCrashSafe(worlds: seq<World>, ops: seq<Operation>, k: nat)
    requires Operations(worlds, ops) && Recoverable(worlds[0]) && k <= |ops|
    ensures (forall i | 0 <= i < k :: AllRecoverable(StatesOf(worlds[i], ops[i]))) <==>
            (forall i | 0 <= i < k :: Keeps(worlds[i], ops[i]))
    ensures (forall i | 0 <= i < k :: Keeps(worlds[i], ops[i])) ==> Recoverable(worlds[k])
  {
    hide Recoverable, AllRecoverable, StatesOf, CanLeave, Keeps;
    if k > 0 {
      RunCrashSafe(worlds, ops, k - 1);
      if forall i | 0 <= i < k - 1 :: Keeps(worlds[i], ops[i]) {
        OperationCrashSafe(worlds[k - 1], ops[k - 1]);
        if Keeps(worlds[k - 1], ops[k - 1]) {
          LeftRecoverable(worlds[k - 1], ops[k - 1], worlds[k]);
        }
      }
    }
  }

  /** As long as nothing crashes, every operation finds it, but for an upgrade
      that replaces the folder it runs from: what runs to its end ends settled. */
  lemma {:induction false} CrashlessSafe(worlds: seq<World>, ops: seq<Operation>, k: nat)
    requires Operations(worlds, ops) && Settled(worlds[0]) && k < |ops|
    requires forall i | 0 <= i < k :: worlds[i + 1] == Last(worlds[i], StatesOf(worlds[i], ops[i]))
    requires ops[k].Upgrade? ==> !Replaces(worlds[k], ops[k].target, ops[k].named, ops[k].luck)
    ensures Settled(worlds[k]) && AllRecoverable(StatesOf(worlds[k], ops[k]))
  {
    hide Recoverable, AllRecoverable, UpgradeRun, RollbackRun, Replaces, CanLeave, Settled;
    SettledAfter(worlds, ops, k);
    SettledRecoverable(worlds[k]);
    match ops[k]
    case Upgrade(target, named, luck) => SettledUpgradeSafe(worlds[k], target, named, luck);
    case Rollback(works, restores) =>
      RollbackCrashSafe(worlds[k], works, restores);
      SettledRollback(worlds[k], works, restores);
  }

  lemma SettledRollback(w: World, works: bool, restores: bool)
    requires Settled(w)
    ensures RollbackRun(w, works, restores).1.None? || w.current == Some(w.healthy)
  {
  }

  lemma {:induction false} SettledAfter(worlds: seq<World>, ops: seq<Operation>, k: nat)
    requires Operations(worlds, ops) && Settled(worlds[0]) && k <= |ops|
    requires forall i | 0 <= i < k :: worlds[i + 1] == Last(worlds[i], StatesOf(worlds[i], ops[i]))
    ensures Settled(worlds[k])
  {
    hide UpgradeRun, RollbackRun, CanLeave, Settled, Recoverable;
    if k > 0 {
      SettledAfter(worlds, ops, k - 1);
      var w := worlds[k - 1];
      match ops[k - 1]
      case Upgrade(target, named, luck) => UpgradeEnds(w, target, named, luck);
      case Rollback(works, restores) =>
        SettledRecoverable(w);
        RollbackCrashSafe(w, works, restores);
    }
  }
}
