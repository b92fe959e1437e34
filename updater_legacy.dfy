// The older updater: the same rotation of `latest/` into `outdated/`, but the
// staged payload comes from `update/app/`, the binary swap is unconditional
// once both staged copies exist, and a failure is reverted by moving
// `outdated/` back into `latest/` without emptying `latest/` first.

module LegacyUpdater {
  import opened Wrappers
  import opened Disk

  const ArchiveName: Name := "AutomaticUpdaterRelease.zip"

  /** What `updateApplication` prints at the end of its run. */
  datatype LegacyOutcome =
    | Updated       // "Successfully updated the main application", update/ removed
    | Reverted      // "Successfully restored all parts"
    | NotReverted   // "Failed to revert all parts": there was no outdated/ to go back to
    | Failed        // "Failed to apply the update": an exception reached the outer handler

  /** The steps the main flow runs once the versions differ. */
  datatype Step = Download | Unzip | Apply | Cleanup

  predicate BothStaged(m: map<Area, set<Name>>)
  {
    FileIn(m, Update, UpdaterExe) && FileIn(m, Update, UninstallExe)
  }

  predicate BothBackedUp(m: map<Area, set<Name>>)
  {
    FileIn(m, Root, UpdaterOutdatedExe) && FileIn(m, Root, UninstallOutdatedExe)
  }

  /**
   * Lines 88-91: four unconditional moves; the live binaries must exist, and
   * each is renamed before its staged copy takes its place.
   */
  method SwapBinaries(d: Disk) returns (ok: bool)
    requires BothStaged(d.dirs)
    modifies d
    ensures ok ==> (FileIn(old(d.dirs), Root, UninstallExe) && FileIn(old(d.dirs), Root, UpdaterExe) &&
                    d.dirs == old(d.dirs)[Root := old(d.dirs)[Root] + {UninstallOutdatedExe, UpdaterOutdatedExe}]
                                         [Update := old(d.dirs)[Update] - {UninstallExe, UpdaterExe}])
    ensures Frame(old(d.dirs), d.dirs, {Root, Update})
    ensures d.version == old(d.version)
  {
    ok := d.Move(Root, UninstallExe, Root, UninstallOutdatedExe);
    if !ok {
      return;
    }
    ok := d.Move(Update, UninstallExe, Root, UninstallExe);
    if !ok {
      return;
    }
    ghost var half := d.dirs;
    assert half[Root] == old(d.dirs)[Root] + {UninstallOutdatedExe};
    ok := d.Move(Root, UpdaterExe, Root, UpdaterOutdatedExe);
    if !ok {
      return;
    }
    ok := d.Move(Update, UpdaterExe, Root, UpdaterExe);
    if ok {
      assert d.dirs[Root] == old(d.dirs)[Root] + {UninstallOutdatedExe, UpdaterOutdatedExe};
      assert d.dirs[Update] == old(d.dirs)[Update] - {UninstallExe, UpdaterExe};
      assert d.dirs == old(d.dirs)[Root := d.dirs[Root]][Update := d.dirs[Update]];
    }
  }

  /** Lines 76-97: install `update/app/`, swap the binaries if staged, then drop `update/`. */
  method Install(d: Disk) returns (ok: bool)
    requires Latest in d.dirs
    modifies d
    ensures ok ==> (UpdateApp in old(d.dirs) && Latest in d.dirs &&
                    d.dirs[Latest] == old(d.dirs)[Latest] + old(d.dirs)[UpdateApp] && NoStaging(d.dirs))
    ensures ok && BothStaged(old(d.dirs)) ==>
      Root in old(d.dirs) && Root in d.dirs &&
      d.dirs[Root] == old(d.dirs)[Root] + {UninstallOutdatedExe, UpdaterOutdatedExe}
    ensures ok && !BothStaged(old(d.dirs)) ==> Agree(old(d.dirs), d.dirs, Root)
    ensures Frame(old(d.dirs), d.dirs, {Latest, Root, Update, UpdateLatest, UpdateApp})
    ensures Latest in d.dirs && old(d.dirs)[Latest] <= d.dirs[Latest]
    ensures d.dirs[Latest] - old(d.dirs)[Latest] <= EntriesOf(old(d.dirs), UpdateApp)
    ensures d.version == old(d.version)
  {
    ok := InstallApp(d);
    if !ok {
      return;
    }
    ok := FinishStaging(d);
  }

  /** Lines 77-82: every entry of `update/app/` moved into `latest/`, then `update/app/` removed. */
  method InstallApp(d: Disk) returns (ok: bool)
    requires Latest in d.dirs
    modifies d
    ensures ok ==> UpdateApp in old(d.dirs) && UpdateApp !in d.dirs
    ensures ok ==> Latest in d.dirs && d.dirs[Latest] == old(d.dirs)[Latest] + EntriesOf(old(d.dirs), UpdateApp)
    ensures Frame(old(d.dirs), d.dirs, {Latest, UpdateApp})
    ensures Latest in d.dirs && old(d.dirs)[Latest] <= d.dirs[Latest]
    ensures d.dirs[Latest] - old(d.dirs)[Latest] <= EntriesOf(old(d.dirs), UpdateApp)
    ensures d.version == old(d.version)
  {
    ok := d.MoveAll(UpdateApp, Latest);
    if !ok {
      return;
    }
    ok := d.Rmtree(UpdateApp);
  }

  /**
   * Lines 86-97: the binaries swapped when both staged copies exist, and
   * `update/` removed whether or not they were.
   */
  method FinishStaging(d: Disk) returns (ok: bool)
    modifies d
    ensures ok ==> NoStaging(d.dirs)
    ensures ok && BothStaged(old(d.dirs)) ==>
      Root in old(d.dirs) && Root in d.dirs &&
      d.dirs[Root] == old(d.dirs)[Root] + {UninstallOutdatedExe, UpdaterOutdatedExe}
    ensures ok && !BothStaged(old(d.dirs)) ==> Agree(old(d.dirs), d.dirs, Root)
    ensures Frame(old(d.dirs), d.dirs, {Root, Update, UpdateLatest, UpdateApp})
    ensures d.version == old(d.version)
  {
    if FileIn(d.dirs, Update, UpdaterExe) && FileIn(d.dirs, Update, UninstallExe) {
      ok := SwapBinaries(d);
      if !ok {
        return;
      }
    }
    ok := d.Rmtree(Update);
  }

  /**
   * Lines 102-108: `latest/` made when it is missing, then every entry of
   * `outdated/` moved into it.
   */
  method ReturnOutdated(d: Disk) returns (ok: bool)
    requires Outdated in d.dirs
    modifies d
    ensures ok ==>
      Latest in d.dirs && d.dirs[Latest] == EntriesOf(old(d.dirs), Latest) + old(d.dirs)[Outdated] &&
      Outdated in d.dirs && d.dirs[Outdated] == {}
    ensures Frame(old(d.dirs), d.dirs, {Latest, Outdated})
    ensures EntriesOf(old(d.dirs), Latest) <= EntriesOf(d.dirs, Latest)
    ensures EntriesOf(old(d.dirs), Outdated) <= EntriesOf(d.dirs, Latest) + EntriesOf(d.dirs, Outdated)
    ensures d.version == old(d.version)
  {
    if Latest !in d.dirs {
      var made := d.Mkdir(Latest);
      if !made {
        return false;
      }
    }
    ghost var m1 := d.dirs;
    assert Latest in m1 && m1[Latest] == EntriesOf(old(d.dirs), Latest) && m1[Outdated] == old(d.dirs)[Outdated];
    assert Frame(old(d.dirs), m1, {Latest});
    ok := d.MoveAll(Outdated, Latest);
    assert Latest in d.dirs && Outdated in d.dirs;
    assert d.dirs[Latest] == m1[Latest] + (m1[Outdated] - d.dirs[Outdated]);
  }

  /**
   * Lines 99-118: move everything in `outdated/` back into `latest/` (which
   * keeps whatever was already installed there), and restore the binaries
   * only when both backups exist.
   */
  method Revert(d: Disk) returns (outcome: LegacyOutcome)
    modifies d
    ensures outcome == Reverted || outcome == NotReverted || outcome == Failed
    ensures Outdated !in old(d.dirs) <==> outcome == NotReverted
    ensures outcome == NotReverted ==> d.dirs == old(d.dirs)
    ensures outcome == Reverted ==>
      Latest in d.dirs && d.dirs[Latest] == EntriesOf(old(d.dirs), Latest) + old(d.dirs)[Outdated] &&
      Outdated in d.dirs && d.dirs[Outdated] == {}
    ensures outcome == Reverted && BothBackedUp(old(d.dirs)) ==>
      Root in d.dirs &&
      d.dirs[Root] == old(d.dirs)[Root] - {UpdaterOutdatedExe, UninstallOutdatedExe} + {UpdaterExe, UninstallExe}
    ensures outcome == Reverted && !BothBackedUp(old(d.dirs)) ==> Agree(old(d.dirs), d.dirs, Root)
    ensures Frame(old(d.dirs), d.dirs, {Latest, Outdated, Root})
    ensures EntriesOf(old(d.dirs), Latest) <= EntriesOf(d.dirs, Latest)
    ensures EntriesOf(old(d.dirs), Outdated) <= EntriesOf(d.dirs, Latest) + EntriesOf(d.dirs, Outdated)
    ensures d.version == old(d.version)
  {
    if Outdated !in d.dirs {
      return NotReverted;
    }
    var ok := ReturnOutdated(d);
    if !ok {
      return Failed;
    }
    ok := RestoreBinaries(d);
    return if ok then Reverted else Failed;
  }

  /** Lines 111-113: both backups moved back, only when both exist. */
  method RestoreBinaries(d: Disk) returns (ok: bool)
    modifies d
    ensures ok && BothBackedUp(old(d.dirs)) ==>
      Root in d.dirs &&
      d.dirs[Root] == old(d.dirs)[Root] - {UpdaterOutdatedExe, UninstallOutdatedExe} + {UpdaterExe, UninstallExe}
    ensures ok && !BothBackedUp(old(d.dirs)) ==> d.dirs == old(d.dirs)
    ensures Frame(old(d.dirs), d.dirs, {Root})
    ensures d.version == old(d.version)
  {
    ok := true;
    if FileIn(d.dirs, Root, UpdaterOutdatedExe) && FileIn(d.dirs, Root, UninstallOutdatedExe) {
      ok := d.Move(Root, UpdaterOutdatedExe, Root, UpdaterExe);
      if !ok {
        return;
      }
      ok := d.Move(Root, UninstallOutdatedExe, Root, UninstallExe);
    }
  }

  /**
   * `updateApplication` (lines 51-122). A successful run leaves the staged
   * payload in `latest/`; a revert leaves the old payload there merged with
   * whatever staged entries had already arrived.
   */
  method UpdateApplication(d: Disk) returns (outcome: LegacyOutcome)
    modifies d
    ensures outcome == Updated ==>
      UpdateApp in old(d.dirs) && Latest in d.dirs && d.dirs[Latest] == old(d.dirs)[UpdateApp] &&
      NoStaging(d.dirs) &&
      (Latest in old(d.dirs) ==> Outdated in d.dirs && d.dirs[Outdated] == old(d.dirs)[Latest])
    ensures outcome == Reverted ==>
      Latest in old(d.dirs) && Latest in d.dirs && old(d.dirs)[Latest] <= d.dirs[Latest] &&
      d.dirs[Latest] - old(d.dirs)[Latest] <= EntriesOf(old(d.dirs), UpdateApp) &&
      Outdated in d.dirs && d.dirs[Outdated] == {}
    ensures Latest in old(d.dirs) ==>
      old(d.dirs)[Latest] <= EntriesOf(d.dirs, Latest) + EntriesOf(d.dirs, Outdated)
    ensures (Latest in old(d.dirs) && Outdated !in old(d.dirs) &&
      !d.Healthy(old(d.clock), old(d.clock) + 1 + |old(d.dirs)[Latest]|)) ==>
      outcome == Failed && d.StoppedRotation(old(d.dirs), old(d.clock), d.dirs, d.clock)
    ensures d.version == old(d.version)
  {
    var ok := RotateForUpdate(d);
    if !ok {
      return Failed;
    }
    ghost var rotated := d.dirs;
    ok := Install(d);
    if ok {
      return Updated;
    }
    ghost var failed := d.dirs;
    assert Agree(rotated, failed, Outdated);
    outcome := Revert(d);
  }

  /**
   * `deleteFiles` (lines 125-149): best-effort purge of `outdated/` and
   * removal of the archive. The purge runs whatever `updateApplication`
   * left in `outdated/`; it removes the whole tree when none of its calls
   * fails.
   */
  method DeleteFiles(d: Disk)
    modifies d
    ensures Frame(old(d.dirs), d.dirs, {Outdated, Root})
    ensures Outdated in d.dirs ==>
      Outdated in old(d.dirs) && d.dirs[Outdated] <= old(d.dirs)[Outdated] &&
      ExeFirst(old(d.dirs)[Outdated], d.dirs[Outdated])
    ensures (Outdated in old(d.dirs) &&
      d.Healthy(old(d.clock), old(d.clock) + |old(d.dirs)[Outdated]| + 1)) ==> Outdated !in d.dirs
    ensures (Root in d.dirs <==> Root in old(d.dirs)) &&
      EntriesOf(d.dirs, Root) <= EntriesOf(old(d.dirs), Root) &&
      EntriesOf(old(d.dirs), Root) - EntriesOf(d.dirs, Root) <= {ArchiveName}
    ensures d.version == old(d.version)
  {
    if Outdated in d.dirs {
      var _ := d.PurgeOutdated();
    }
    if FileIn(d.dirs, Root, ArchiveName) {
      var _ := d.Remove(Root, ArchiveName);
    }
  }

  /**
   * The run of `FailedRotationThenCleanup` up to the cleanup: the rotation
   * moves one installed entry to `outdated/` and stops after three calls.
   */
  method RotationStopsAtSecondMove(d: Disk)
    requires d.dirs == map[Root := {}, Latest := {"a", "b"}] && d.clock == 0 && d.faults == {2}
    modifies d
    ensures d.clock == 3 && Latest in d.dirs && Outdated in d.dirs
    ensures |d.dirs[Latest]| == 1 && d.dirs[Latest] < {"a", "b"}
  {
    var outcome := UpdateApplication(d);
    assert !d.Healthy(0, 3) by {
      assert 2 in d.faults;
    }
    assert d.clock == 3 && |d.dirs[Outdated]| == 1;
    assert |d.dirs[Latest]| == 1 by {
      assert |d.dirs[Latest] + d.dirs[Outdated]| == 2;
    }
    assert d.dirs[Latest] <= d.dirs[Latest] + d.dirs[Outdated];
  }

  /**
   * `updateApplication` followed by `deleteFiles` (lines 176-177) on a run
   * whose third filesystem call fails: `latest/` holds "a" and "b", the
   * rotation moves one of them and stops, and the purge of `outdated/`
   * deletes it. Returns what is left of the two installed entries.
   */
  method FailedRotationThenCleanup() returns (left: set<Name>)
    ensures left < {"a", "b"} && |left| == 1
  {
    var d := new Disk(map[Root := {}, Latest := {"a", "b"}], None, {2});
    RotationStopsAtSecondMove(d);
    ghost var stopped := d.dirs;
    assert d.Healthy(3, 5);
    DeleteFiles(d);
    left := EntriesOf(d.dirs, Latest) + EntriesOf(d.dirs, Outdated);
    assert left == stopped[Latest];
  }

  /**
   * `updateApplication` followed by a cleanup that purges `outdated/` only
   * when it holds nothing still needed: after `Updated` it holds the
   * replaced payload, after `Reverted` it is empty. After any other outcome
   * the installed payload is still in `latest/` or `outdated/`.
   */
  method UpdateThenGuardedCleanup(d: Disk) returns (outcome: LegacyOutcome)
    modifies d
    ensures outcome == Updated ==>
      UpdateApp in old(d.dirs) && Latest in d.dirs && d.dirs[Latest] == old(d.dirs)[UpdateApp] &&
      NoStaging(d.dirs)
    ensures outcome == Reverted ==>
      Latest in old(d.dirs) && Latest in d.dirs && old(d.dirs)[Latest] <= d.dirs[Latest]
    ensures Latest in old(d.dirs) && outcome != Updated ==>
      old(d.dirs)[Latest] <= EntriesOf(d.dirs, Latest) + EntriesOf(d.dirs, Outdated)
    ensures d.version == old(d.version)
  {
    outcome := UpdateApplication(d);
    if outcome == Updated || outcome == Reverted {
      DeleteFiles(d);
    } else if FileIn(d.dirs, Root, ArchiveName) {
      var _ := d.Remove(Root, ArchiveName);
    }
  }

  /** The guarded cleanup on the run of `FailedRotationThenCleanup` keeps both entries. */
  method FailedRotationKept() returns (left: set<Name>)
    ensures {"a", "b"} <= left
  {
    var d := new Disk(map[Root := {}, Latest := {"a", "b"}], None, {2});
    var outcome := UpdateThenGuardedCleanup(d);
    left := EntriesOf(d.dirs, Latest) + EntriesOf(d.dirs, Outdated);
  }

  /** `downloadUpdate` (lines 26-38): failures are only printed. */
  method DownloadUpdate(d: Disk, assetFound: bool)
    modifies d
    ensures Frame(old(d.dirs), d.dirs, {Root})
    ensures EntriesOf(d.dirs, Root) - EntriesOf(old(d.dirs), Root) <= (if assetFound then {ArchiveName} else {})
    ensures d.version == old(d.version)
  {
    if assetFound {
      var _ := d.CreateFile(Root, ArchiveName);
    }
  }

  /**
   * The script's main flow (lines 157-182). `installed` is the first line of
   * `latest/version` ("" when it cannot be read); the release tag is None when
   * the request fails or cannot be parsed. Returns the steps that ran.
   */
  method RunScript(d: Disk, installed: string, release: Option<string>, assetFound: bool,
              files: set<Name>, payload: Option<set<Name>>) returns (steps: seq<Step>, outcome: Option<LegacyOutcome>)
    modifies d
    ensures steps == [] || steps == [Download, Unzip, Apply, Cleanup]
    ensures steps != [] <==> release.Some? && release.value != installed
    ensures outcome.Some? <==> steps != []
    ensures steps == [] ==> d.dirs == old(d.dirs)
    ensures outcome == Some(Updated) ==>
      Latest in d.dirs && NoStaging(d.dirs) &&
      EntriesOf(old(d.dirs), UpdateApp) <= d.dirs[Latest] <= EntriesOf(old(d.dirs), UpdateApp) + PayloadOf(payload)
    ensures outcome == Some(Reverted) ==>
      Latest in old(d.dirs) && Latest in d.dirs && old(d.dirs)[Latest] <= d.dirs[Latest]
    ensures d.version == old(d.version)
  {
    steps := [];
    outcome := None;
    if release.None? || release.value == installed {
      return;
    }
    // each step runs whatever became of the previous one
    DownloadUpdate(d, assetFound);
    var _ := d.ExtractArchive(ArchiveName, files, UpdateApp, payload);
    var applied := UpdateApplication(d);
    DeleteFiles(d);
    steps := [Download, Unzip, Apply, Cleanup];
    outcome := Some(applied);
  }
}
