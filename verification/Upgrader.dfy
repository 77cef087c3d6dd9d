/** The upgrade command as it changes links, folders and the skip file one step
    at a time. Each change is recorded, so the record is what a crash could
    leave; it is proved to be the run described in Cutover. */
module Upgrader {
  import opened Text
  import opened Versions
  import opened Cutover

  class Upgrader {
    var plist: Option<string>
    var current: Option<string>
    var previous: Option<string>
    var disk: map<string, string>
    var skip: Option<string>
    ghost var healthy: string
    ghost var record: seq<World>

    ghost function Now(): World
      reads this
    {
      World(plist, current, previous, disk, skip, healthy)
    }

    constructor (w: World)
      ensures Now() == w && record == []
    {
      plist, current, previous, disk, skip := w.plist, w.current, w.previous, w.disk, w.skip;
      healthy, record := w.healthy, [];
    }

    method LinkPrevious(target: Option<string>)
      modifies this`previous, this`record
      ensures Now() == old(Now()).(previous := target) && record == old(record) + [Now()]
    {
      previous := target;
      record := record + [Now()];
    }

    method LinkCurrent(target: string)
      modifies this`current, this`record
      ensures Now() == old(Now()).(current := Some(target)) && record == old(record) + [Now()]
    {
      current := Some(target);
      record := record + [Now()];
    }

    /** Points current at an archive and restarts the job; `answers` is whether
        it then reports the right version and answers a search. */
    method RestartOn(name: string, answers: bool)
      modifies this`current, this`healthy, this`record
      ensures var pointed := old(Now()).(current := Some(name));
              && Now() == (if answers then pointed.(healthy := name) else pointed)
              && record == old(record) + [pointed, Now()]
    {
      LinkCurrent(name);
      if answers {
        healthy := name;
      }
      record := record + [Now()];
    }

    method Cutover(name: string, works: bool, restores: bool) returns (outcome: Outcome)
      requires plist.None? && current.Some?
      modifies this`current, this`previous, this`healthy, this`record
      ensures var spec := CutoverRun(old(Now()), name, works, restores);
              outcome == spec.1 && Now() == Last(old(Now()), spec.0)
      ensures forall w :: w in record <==> w in old(record) || w in CutoverRun(old(Now()), name, works, restores).0
    {
      ghost var start := Now();
      var was := current.value;
      var before := previous;
      LinkPrevious(Some(was));
      RestartOn(name, works);
      if !works {
        RestartOn(was, restores);
        LinkPrevious(before);
        outcome := if restores then Restored else RestoreFailed;
      } else {
        outcome := Switched;
      }
    }

    method Rollback(works: bool, restores: bool) returns (outcome: Option<Outcome>)
      modifies this
      ensures var spec := RollbackRun(old(Now()), works, restores);
              outcome == spec.1 && Now() == Last(old(Now()), spec.0)
      ensures forall w :: w in record <==> w in old(record) || w in RollbackRun(old(Now()), works, restores).0
    {
      if previous.None? || plist.Some? || current.None? {
        return None;
      }
      if current.value !in disk || previous.value !in disk {
        return None;
      }
      var running := disk[current.value];
      var cut := Cutover(previous.value, works, restores);
      if cut.Switched? {
        skip := Some(running);
        record := record + [Now()];
      }
      outcome := Some(cut);
    }

    method PruneArchives()
      modifies this`disk, this`record
      ensures Now() == Pruned(old(Now()))
      ensures forall w | w in record :: w in old(record) || PartlyPruned(old(Now()), w)
    {
      hide ParseVersion;
      var all := disk;
      var folders := disk.Keys;
      ghost var start := Now();
      while folders != {}
        invariant folders <= all.Keys && Now() == start.(disk := disk)
        invariant disk == map f | f in all && (f in folders || !Prunable(start, f)) :: all[f]
        invariant forall w | w in record :: w in old(record) || PartlyPruned(start, w)
        decreases |folders|
      {
        var folder :| folder in folders;
        folders := folders - {folder};
        if PREFIX <= folder && current != Some(folder) && previous != Some(folder) {
          var version := Parse(folder[|PREFIX|..]);
          if version.Some? {
            disk := disk - {folder};
            record := record + [Now()];
          }
        }
      }
    }

    /** Makes the release's archive folder hold the release. */
    method FetchArchive(target: string, ok: bool) returns (fetched: bool)
      modifies this`disk, this`record
      ensures fetched == Fetched(old(Now()), target, ok) && Now() == Last(old(Now()), FetchRun(old(Now()), target, ok))
      ensures forall w | w in record :: w in old(record) || w in FetchRun(old(Now()), target, ok)
    {
      var folder := PREFIX + target;
      if folder in disk && disk[folder] == target {
        return true;
      }
      if !ok {
        return false;
      }
      disk := disk - {folder};
      record := record + [Now()];
      disk := disk[folder := target];
      record := record + [Now()];
      fetched := true;
    }

    /** Moves the service onto the current link, putting the old plist back when
        the restarted service is not healthy. */
    method Adopt(plistOk: bool, answers: bool) returns (adopted: bool)
      requires Root(Now()).Some?
      modifies this
      ensures disk == old(disk)
      ensures var spec := AdoptRun(old(Now()), plistOk, answers);
              adopted == spec.1 && Now() == Last(old(Now()), spec.0)
      ensures forall w | w in record :: w in old(record) || w in AdoptRun(old(Now()), plistOk, answers).0
    {
      if plist.None? {
        return true;
      }
      var folder := plist.value;
      LinkCurrent(folder);
      if !plistOk {
        return false;
      }
      plist := None;
      record := record + [Now()];
      if !answers {
        plist := Some(folder);
        record := record + [Now()];
        return false;
      }
      healthy := folder;
      record := record + [Now()];
      adopted := true;
    }

    /** Cutover to a fetched release, then the skip file and the old archives. */
    method Switch(target: string, luck: Luck) returns (report: Report)
      requires plist.None? && current.Some? && ParseVersion(target).Some?
      modifies this
      ensures var spec := SwitchRun(old(Now()), target, luck);
              report == spec.1 && Now() == Last(old(Now()), spec.0)
      ensures forall w | w in record :: w in old(record) || w in SwitchRun(old(Now()), target, luck).0
                || (luck.works && PartlyPruned(Cleared(old(Now()), target), w))
    {
      hide ParseVersion, Older, Prunable, PartlyPruned;
      ghost var start := Now();
      var outcome := Cutover(PREFIX + target, luck.works, luck.restores);
      if !outcome.Switched? {
        skip := Some(target);
        record := record + [Now()];
        return CutoverFailed;
      }
      var wanted := Parse(target);
      if skip.Some? {
        var skipped := Parse(skip.value);
        if skipped.Some? && !Older(wanted.value, skipped.value) {
          skip := None;
        }
      }
      record := record + [Now()];
      assert Now() == Cleared(start, target);
      PruneArchives();
      report := Upgraded;
    }

    /** Decides whether to go ahead, changing nothing. */
    method Vet(target: string, named: bool) returns (refusal: Option<Report>)
      ensures refusal == Verdict(Now(), target, named)
    {
      hide ParseVersion, Older;
      var root := if plist.Some? then plist else current;
      if root.None? || root.value !in disk {
        return Some(Unreadable);
      }
      var running := disk[root.value];
      var wanted := Parse(target);
      if wanted.None? {
        return Some(InvalidRelease);
      }
      if target == running {
        return Some(AlreadyRunning);
      }
      if !named {
        var have := Parse(running);
        if have.Some? && !Older(have.value, wanted.value) {
          return Some(NotNewer);
        }
        if skip == Some(target) {
          return Some(Skipping);
        }
      }
      refusal := None;
    }

    /** One upgrade. From a settled service it ends settled; from any state that
        can be recovered, a crash in any state it records leaves the last
        healthy archive reachable under the condition that is exact for that. */
    method Upgrade(target: string, named: bool, luck: Luck) returns (report: Report)
      modifies this
      ensures var spec := UpgradeRun(old(Now()), target, named, luck);
              report == spec.1 && Now() == Last(old(Now()), spec.0)
      ensures Settled(old(Now())) ==> Settled(Now())
      ensures Recoverable(old(Now())) && UpgradeKeeps(old(Now()), target, named, luck) ==> Safe(old(record), record)
    {
      hide ParseVersion, Older, SwitchRun, AdoptRun, FetchRun, Fetched, Verdict, PartlyPruned, Settled, Recoverable;
      hide Safe, AllRecoverable, Cleared, FetchKeeps, AdoptKeeps, CutoverRun, Pruned, SkipAfter, Prunable;
      ghost var start, before := Now(), record;
      ghost var safe := Recoverable(start) && UpgradeKeeps(start, target, named, luck);
      if Settled(start) {
        UpgradeEnds(start, target, named, luck);
      }
      NothingNew(record);
      var refusal := Vet(target, named);
      if refusal.Some? {
        return refusal.value;
      }
      VerdictParsed(start, target, named);
      var fetched := FetchArchive(target, luck.fetched);
      if safe {
        FetchCrashSafe(start, target, luck.fetched);
        MoreSafe(before, before, record, FetchRun(start, target, luck.fetched));
      }
      if !fetched {
        return FetchFailed;
      }
      if !luck.backedUp {
        return BackupFailed;
      }
      ghost var stocked, mid := Now(), record;
      var adopted := Adopt(luck.adoptPlist, luck.adoptHealthy);
      if safe {
        StockedKeeps(start, stocked);
        AdoptCrashSafe(stocked, luck.adoptPlist, luck.adoptHealthy);
        MoreSafe(before, mid, record, AdoptRun(stocked, luck.adoptPlist, luck.adoptHealthy).0);
      }
      if !adopted {
        return AdoptFailed;
      }
      ghost var ready := Now();
      mid := record;
      report := Switch(target, luck);
      if safe {
        SwitchRecordSafe(ready, target, luck, mid, record);
        SafeChain(before, mid, record);
      }
      SwitchTraced(ready, target, luck);
    }
  }

  /** Every state recorded since can be recovered from. */
  ghost predicate Safe(before: seq<World>, record: seq<World>) {
    forall w | w in record :: w in before || Recoverable(w)
  }

  lemma NothingNew(record: seq<World>)
    ensures Safe(record, record)
  {
  }

  lemma SafeChain(before: seq<World>, mid: seq<World>, record: seq<World>)
    requires Safe(before, mid) && Safe(mid, record)
    ensures Safe(before, record)
  {
    hide Recoverable;
  }

  lemma MoreSafe(before: seq<World>, mid: seq<World>, record: seq<World>, trace: seq<World>)
    requires Safe(before, mid) && AllRecoverable(trace)
    requires forall w | w in record :: w in mid || w in trace
    ensures Safe(before, record)
  {
    hide Recoverable;
    assert forall w | w in trace :: Recoverable(w);
  }

  /** More folders on disk change nothing for the steps after them. */
  lemma StockedKeeps(w: World, n: World)
    requires n == w.(disk := n.disk) && (Settled(n) <==> Settled(w))
    ensures AdoptKeeps(n) <==> AdoptKeeps(w)
  {
    hide Settled;
  }

  /** The world once a healthy cutover has settled the skip file. */
  function Cleared(w: World, target: string): World
    requires w.plist.None? && w.current.Some? && ParseVersion(target).Some?
  {
    var n := Last(w, CutoverRun(w, PREFIX + target, true, true).0);
    n.(skip := SkipAfter(n, ParseVersion(target).value))
  }

  /** Every state an upgrade's cutover and pruning can leave is recoverable. */
  lemma SwitchRecordSafe(w: World, target: string, luck: Luck, mid: seq<World>, record: seq<World>)
    requires Settled(w) && w.plist.None? && ParseVersion(target).Some?
    requires PREFIX + target in w.disk && w.disk[PREFIX + target] == target
    requires forall seen | seen in record :: seen in mid || seen in SwitchRun(w, target, luck).0
               || (luck.works && PartlyPruned(Cleared(w, target), seen))
    ensures Safe(mid, record)
  {
    assert w.current.Some?;
    hide ParseVersion, Older, Prunable, PartlyPruned, SkipAfter, SwitchRun, Settled, Recoverable, Cleared;
    SwitchSafe(w, target, luck);
    forall seen | seen in record && seen !in mid ensures Recoverable(seen) {
      if seen !in SwitchRun(w, target, luck).0 {
        ClearedSettled(w, target, luck);
        PartlyPrunedSafe(Cleared(w, target), seen);
      }
    }
  }

  lemma ClearedSettled(w: World, target: string, luck: Luck)
    requires Settled(w) && w.plist.None? && ParseVersion(target).Some? && PREFIX + target in w.disk
    ensures Settled(Cleared(w, target)) && Cleared(w, target).plist.None?
  {
    hide ParseVersion, Older, SkipAfter;
  }
}
