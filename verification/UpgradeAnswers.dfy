/** When an upgrade or a rollback goes ahead, what it reports otherwise, and
    what it leaves of the skip file and the old archives. */
module UpgradeAnswers {
  import opened Text
  import opened Versions
  import opened Cutover

  /** The release is to be installed: it is one, it is not what runs, and unless
      it was asked for by name it is newer than a running release and is not
      the one that was backed out. */
  predicate Wanted(w: World, target: string, named: bool)
    requires Running(w).Some?
  {
    var running := Running(w).value;
    && ParseVersion(target).Some? && target != running
    && (named || (w.skip != Some(target) &&
                  (ParseVersion(running).Some? ==> Older(ParseVersion(running).value, ParseVersion(target).value))))
  }

  /** The archive of the release is at hand or can be downloaded. */
  predicate Available(w: World, target: string, luck: Luck) {
    luck.fetched || (PREFIX + target in w.disk && w.disk[PREFIX + target] == target)
  }

  /** The service runs by its current link, or can be moved onto it. */
  predicate Adoptable(w: World, luck: Luck) {
    w.plist.None? || (luck.adoptPlist && luck.adoptHealthy)
  }

  /** An upgrade reports the first thing that keeps it from going on, and that
      it upgraded when nothing does. */
  lemma UpgradeReports(w: World, target: string, named: bool, luck: Luck)
    ensures var report := UpgradeRun(w, target, named, luck).1;
            if Running(w).None? then report == Unreadable
            else
              var running := Running(w).value;
              if ParseVersion(target).None? then report == InvalidRelease
              else if target == running then report == AlreadyRunning
              else if !named && ParseVersion(running).Some?
                      && !Older(ParseVersion(running).value, ParseVersion(target).value) then report == NotNewer
              else if !named && w.skip == Some(target) then report == Skipping
              else if !Available(w, target, luck) then report == FetchFailed
              else if !luck.backedUp then report == BackupFailed
              else if !Adoptable(w, luck) then report == AdoptFailed
              else report == if luck.works then Upgraded else CutoverFailed
  {
    hide ParseVersion, Older, FetchRun, AdoptRun, SwitchRun;
    if Verdict(w, target, named).None? {
      VerdictParsed(w, target, named);
      var stocked := Last(w, FetchRun(w, target, luck.fetched));
      FetchKeepsLinks(w, target, luck.fetched);
      if Available(w, target, luck) && luck.backedUp {
        AdoptsWhen(stocked, luck);
        var (adopt, adopted) := AdoptRun(stocked, luck.adoptPlist, luck.adoptHealthy);
        if adopted {
          SwitchReports(Last(stocked, adopt), target, luck);
        }
      }
    }
  }

  lemma FetchKeepsLinks(w: World, target: string, ok: bool)
    ensures var n := Last(w, FetchRun(w, target, ok)); n == w.(disk := n.disk)
  {
  }

  lemma AdoptsWhen(w: World, luck: Luck)
    requires Root(w).Some?
    ensures AdoptRun(w, luck.adoptPlist, luck.adoptHealthy).1 <==> Adoptable(w, luck)
  {
  }

  lemma SwitchReports(w: World, target: string, luck: Luck)
    requires w.plist.None? && w.current.Some? && ParseVersion(target).Some?
    ensures SwitchRun(w, target, luck).1 == if luck.works then Upgraded else CutoverFailed
  {
    hide ParseVersion, SkipAfter, Pruned;
  }

  /** With every step succeeding, an upgrade installs the release exactly when
      it is wanted, and otherwise changes nothing. */
  lemma UpgradesWhenWanted(w: World, target: string, named: bool, luck: Luck)
    requires Running(w).Some? && luck == Luck(true, true, true, true, true, luck.restores)
    ensures var (trace, report) := UpgradeRun(w, target, named, luck);
            && (report.Upgraded? <==> Wanted(w, target, named))
            && (!Wanted(w, target, named) ==> trace == [])
  {
    hide ParseVersion, Older, FetchRun, AdoptRun, SwitchRun;
    UpgradeReports(w, target, named, luck);
  }

  /** A folder named for a release. */
  predicate ReleaseFolder(folder: string) {
    PREFIX <= folder && ParseVersion(folder[|PREFIX|..]).Some?
  }

  /** What an installed release leaves: the recorded skip is gone exactly when
      it is a release no newer than the one installed, and of the release
      folders just the two that the links name, with all else on disk. */
  lemma UpgradeClears(w: World, target: string, named: bool, luck: Luck)
    requires UpgradeRun(w, target, named, luck).1.Upgraded?
    ensures ParseVersion(target).Some? && Root(w).Some?
    ensures var n := Last(w, UpgradeRun(w, target, named, luck).0);
            var overtaken := w.skip.Some? && ParseVersion(w.skip.value).Some?
                             && !Older(ParseVersion(target).value, ParseVersion(w.skip.value).value);
            && n.skip == (if overtaken then None else w.skip)
            && n.current == Some(PREFIX + target) && n.previous == Root(w) && n.healthy == PREFIX + target
            && (forall f :: f in n.disk <==>
                  (f in w.disk || f == PREFIX + target)
                  && (ReleaseFolder(f) ==> n.current == Some(f) || n.previous == Some(f)))
            && (forall f | f in n.disk && f != PREFIX + target :: n.disk[f] == w.disk[f])
            && n.disk[PREFIX + target] == target
  {
    hide ParseVersion, Older, FetchRun, AdoptRun, SwitchRun, Fetched;
    var trace := UpgradeRun(w, target, named, luck).0;
    assert Verdict(w, target, named).None? by { VerdictReportsNot(w, target, named); }
    VerdictParsed(w, target, named);
    var fetch := FetchRun(w, target, luck.fetched);
    var stocked := Last(w, fetch);
    FetchedExactly(w, target, luck.fetched);
    var (adopt, adopted) := AdoptRun(stocked, luck.adoptPlist, luck.adoptHealthy);
    AdoptedExactly(stocked, luck);
    var ready := Last(stocked, adopt);
    SwitchClears(ready, target, luck);
    SwitchTraced(ready, target, luck);
  }

  lemma VerdictReportsNot(w: World, target: string, named: bool)
    ensures Verdict(w, target, named) != Some(Upgraded)
  {
  }

  lemma FetchedExactly(w: World, target: string, ok: bool)
    requires Fetched(w, target, ok)
    ensures var n := Last(w, FetchRun(w, target, ok)); n == w.(disk := w.disk[PREFIX + target := target])
  {
  }

  lemma AdoptedExactly(w: World, luck: Luck)
    requires Root(w).Some? && AdoptRun(w, luck.adoptPlist, luck.adoptHealthy).1
    ensures var n := Last(w, AdoptRun(w, luck.adoptPlist, luck.adoptHealthy).0);
            n == w.(plist := None, current := Root(w), healthy := n.healthy)
  {
  }

  lemma SwitchClears(w: World, target: string, luck: Luck)
    requires w.plist.None? && w.current.Some? && ParseVersion(target).Some?
    requires SwitchRun(w, target, luck).1.Upgraded?
    ensures var n := Last(w, SwitchRun(w, target, luck).0);
            && n.skip == SkipAfter(w, ParseVersion(target).value)
            && n.current == Some(PREFIX + target) && n.previous == w.current && n.healthy == PREFIX + target
            && forall f :: (f in n.disk <==>
                              f in w.disk && (ReleaseFolder(f) ==> n.current == Some(f) || n.previous == Some(f)))
                           && (f in n.disk ==> n.disk[f] == w.disk[f])
  {
    hide ParseVersion;
  }

  /** What an upgrade that does not get through leaves: nothing but the archive
      it fetched, the link to the folder its plist names, which an adoption that
      failed leaves behind, and for a failed cutover the old version running by
      the current link, with the release to be skipped. */
  lemma UpgradeFails(w: World, target: string, named: bool, luck: Luck)
    ensures var (trace, report) := UpgradeRun(w, target, named, luck);
            var n := Last(w, trace);
            var stocked := w.(disk := w.disk[PREFIX + target := target]);
            match report
            case Upgraded => true
            case BackupFailed => n == stocked
            case AdoptFailed => n == stocked.(current := w.plist)
            case CutoverFailed =>
              && Root(w).Some?
              && n == stocked.(plist := None, current := Root(w), skip := Some(target),
                               healthy := if w.plist.Some? || luck.restores then Root(w).value else w.healthy)
            case _ => n == w
  {
    hide ParseVersion, Older, FetchRun, AdoptRun, SwitchRun, Fetched;
    VerdictStops(w, target, named);
    if Verdict(w, target, named).None? {
      VerdictParsed(w, target, named);
      FetchLeaves(w, target, luck.fetched);
      var stocked := Last(w, FetchRun(w, target, luck.fetched));
      if Fetched(w, target, luck.fetched) && luck.backedUp {
        AdoptLeaves(stocked, luck);
        var (adopt, adopted) := AdoptRun(stocked, luck.adoptPlist, luck.adoptHealthy);
        if !adopted {
          assert Last(w, FetchRun(w, target, luck.fetched) + adopt) == Last(stocked, adopt);
        } else {
          SwitchReports(Last(stocked, adopt), target, luck);
          if !luck.works {
            SwitchFails(Last(stocked, adopt), target, luck);
          }
          SwitchTraced(Last(stocked, adopt), target, luck);
        }
      }
    }
  }

  lemma VerdictStops(w: World, target: string, named: bool)
    ensures Verdict(w, target, named).Some? ==>
              Verdict(w, target, named).value in {Unreadable, InvalidRelease, AlreadyRunning, NotNewer, Skipping}
  {
  }

  lemma FetchLeaves(w: World, target: string, ok: bool)
    ensures var n := Last(w, FetchRun(w, target, ok));
            n == if Fetched(w, target, ok) then w.(disk := w.disk[PREFIX + target := target]) else w
  {
  }

  lemma AdoptLeaves(w: World, luck: Luck)
    requires Root(w).Some?
    ensures w.plist.None? ==> AdoptRun(w, luck.adoptPlist, luck.adoptHealthy).1
    ensures var (trace, adopted) := AdoptRun(w, luck.adoptPlist, luck.adoptHealthy);
            Last(w, trace) ==
            if w.plist.None? then w
            else if adopted then w.(plist := None, current := w.plist, healthy := w.plist.value)
            else w.(current := w.plist)
  {
  }

  lemma SwitchFails(w: World, target: string, luck: Luck)
    requires w.plist.None? && w.current.Some? && ParseVersion(target).Some? && !luck.works
    ensures Last(w, SwitchRun(w, target, luck).0) ==
            w.(skip := Some(target), healthy := if luck.restores then w.current.value else w.healthy)
  {
    hide ParseVersion;
  }

  // ----- rollback -----

  /** A rollback goes ahead exactly when previous names an archive to go back to;
      a healthy one swaps the links and backs out the version that ran, and one
      that fails leaves links and skip file alone. */
  lemma RollbackAnswers(w: World, works: bool, restores: bool)
    ensures var (trace, outcome) := RollbackRun(w, works, restores);
            var n := Last(w, trace);
            && (outcome.Some? <==> w.plist.None? && w.current.Some? && w.previous.Some?
                                   && w.current.value in w.disk && w.previous.value in w.disk)
            && (outcome.None? ==> trace == [])
            && (outcome.Some? ==>
                  if works then
                    && outcome == Some(Switched)
                    && n == w.(current := w.previous, previous := w.current, healthy := w.previous.value,
                               skip := Some(w.disk[w.current.value]))
                  else
                    && outcome == Some(if restores then Restored else RestoreFailed)
                    && n == w.(healthy := if restores then w.current.value else w.healthy))
  {
    if RollbackRun(w, works, restores).1.Some? {
      CutoverEnds(w, w.previous.value, works, restores);
    }
  }

  /** A rolled back release is not installed again that way: unnamed, it is
      skipped until it is asked for by name or overtaken. */
  lemma RolledBackSkipped(w: World, luck: Luck)
    requires RollbackRun(w, true, luck.restores).1.Some?
    ensures var n := Last(w, RollbackRun(w, true, luck.restores).0);
            UpgradeRun(n, w.disk[w.current.value], false, luck).0 == []
  {
    hide ParseVersion, Older;
    RollbackAnswers(w, true, luck.restores);
  }
}
