// The self-update transaction of the stand-alone Python updater: rotate the
// installed payload `latest/` into `outdated/`, move the staged payload from
// `update/latest/` into `latest/`, swap `updater.exe`/`uninstall.exe` with
// `_outdated` backups, and roll back if anything fails after the rotation.

module PythonUpdater {
  import opened Wrappers
  import opened Disk

  const ArchiveName: Name := "AutomaticUpdaterRelease.zip"

  /**
   * What `updateApplication` reports on the console; it returns 1 exactly
   * for `Applied` and 0 for the others.
   */
  datatype ApplyOutcome =
    | Applied                // "Update successful"
    | AbortedBeforeRotation  // failed before `outdatedSet = 1`: no recovery attempted
    | Recovered              // "Successfully recovered"
    | RecoveryFailed         // "Failed to recover"

  /** Both staged binaries are present in `update/`. */
  predicate BothStaged(m: map<Area, set<Name>>)
  {
    FileIn(m, Update, UpdaterExe) && FileIn(m, Update, UninstallExe)
  }

  /**
   * The root directory after a complete binary swap: each live binary has
   * been renamed to its `_outdated` name before the staged copy took its place.
   */
  function SwappedRoot(root: set<Name>): (r: set<Name>)
    ensures root <= r && UpdaterExe in r && UninstallExe in r
    ensures UpdaterExe in root ==> UpdaterOutdatedExe in r
    ensures UninstallExe in root ==> UninstallOutdatedExe in r
  {
    root + {UninstallExe, UpdaterExe}
    + (if UninstallExe in root then {UninstallOutdatedExe} else {})
    + (if UpdaterExe in root then {UpdaterOutdatedExe} else {})
  }

  /** Each live binary of `m1` survives in `m2`, under its own or its backup name. */
  predicate BinariesKept(m1: map<Area, set<Name>>, m2: map<Area, set<Name>>)
  {
    (FileIn(m1, Root, UpdaterExe) ==> FileIn(m2, Root, UpdaterExe) || FileIn(m2, Root, UpdaterOutdatedExe)) &&
    (FileIn(m1, Root, UninstallExe) ==> FileIn(m2, Root, UninstallExe) || FileIn(m2, Root, UninstallOutdatedExe))
  }

  /** The first line of the `version` file as `readlines()[0]` returns it (with its newline). */
  function FirstLine(s: string): (r: string)
    ensures r <= s
    ensures '\n' !in r[..|r| - (if |r| > 0 && r[|r| - 1] == '\n' then 1 else 0)]
    ensures r == s || (|r| > 0 && r[|r| - 1] == '\n')
  {
    if s == [] then []
    else if s[0] == '\n' then ['\n']
    else [s[0]] + FirstLine(s[1..])
  }

  /** What a file opened in text mode reads as: "\r\n" and a lone "\r" both become "\n". */
  function UniversalNewlines(s: string): (r: string)
    ensures |r| <= |s|
    ensures '\r' !in r
    ensures '\r' !in s ==> r == s
    decreases |s|
  {
    if s == [] then []
    else if s[0] == '\r' then
      ['\n'] + UniversalNewlines(if |s| > 1 && s[1] == '\n' then s[2..] else s[1..])
    else [s[0]] + UniversalNewlines(s[1..])
  }

  /**
   * The installed version (lines 258-264): "" when the file is missing or
   * empty, otherwise its first line as text mode reads it.
   */
  function InstalledVersion(v: Option<string>): (r: string)
    ensures v.None? ==> r == ""
    ensures v.Some? ==> r == FirstLine(UniversalNewlines(v.value))
    ensures '\r' !in r
  {
    match v
    case None => ""
    case Some(s) => FirstLine(UniversalNewlines(s))
  }

  /** A version file written on Windows or old Mac OS reads with a plain "\n" ending. */
  lemma VersionLineEndings()
    ensures InstalledVersion(Some("7\r\n8")) == "7\n"
    ensures InstalledVersion(Some("7\r")) == "7\n"
  {
    assert UniversalNewlines("\r\n8") == "\n8" by {
      assert UniversalNewlines("8") == "8";
    }
    assert UniversalNewlines("7\r\n8") == "7\n8";
    assert FirstLine("\n8") == "\n";
    assert UniversalNewlines("\r") == "\n";
    assert UniversalNewlines("7\r") == "7\n";
    assert FirstLine("\n") == "\n";
  }

  /**
   * Lines 122-124 (and 125-127): rename the live binary `live` to `backup` if
   * it exists, then move the staged copy from `update/` into its place.
   */
  method ReplaceBinary(d: Disk, live: Name, backup: Name) returns (ok: bool)
    requires live != backup
    modifies d
    ensures ok ==> (Root in old(d.dirs) && FileIn(old(d.dirs), Update, live) &&
                    d.dirs == old(d.dirs)[Root := old(d.dirs)[Root] + {live}
                                              + (if live in old(d.dirs)[Root] then {backup} else {})]
                                         [Update := old(d.dirs)[Update] - {live}])
    ensures !ok ==> Frame(old(d.dirs), d.dirs, {Root})
    ensures FileIn(old(d.dirs), Root, live) ==> FileIn(d.dirs, Root, live) || FileIn(d.dirs, Root, backup)
    ensures forall n :: n != live && n != backup ==> (FileIn(d.dirs, Root, n) <==> FileIn(old(d.dirs), Root, n))
    ensures d.version == old(d.version)
  {
    ok := true;
    if FileIn(d.dirs, Root, live) {
      ok := d.Move(Root, live, Root, backup);
      if !ok {
        return;
      }
    }
    ghost var renamed := d.dirs;
    ok := d.Move(Update, live, Root, live);
    if ok {
      assert d.dirs[Root] == old(d.dirs)[Root] + {live} + (if live in old(d.dirs)[Root] then {backup} else {});
    }
  }

  /**
   * Lines 117-139: swap the binaries when both staged copies exist. When a
   * move fails, the backups are moved back (`restored` says that both moves
   * back worked) before the failure is passed on.
   */
  method SwapBinaries(d: Disk) returns (ok: bool, restored: bool)
    modifies d
    ensures !BothStaged(old(d.dirs)) ==> ok && d.dirs == old(d.dirs)
    ensures ok && BothStaged(old(d.dirs)) ==>
      Root in old(d.dirs) &&
      d.dirs == old(d.dirs)[Root := SwappedRoot(old(d.dirs)[Root])]
                           [Update := old(d.dirs)[Update] - {UpdaterExe, UninstallExe}]
    ensures ok ==> !restored
    ensures !ok ==> BothStaged(old(d.dirs))
    ensures !ok && restored ==>
      FileIn(d.dirs, Root, UpdaterExe) && FileIn(d.dirs, Root, UninstallExe) &&
      !FileIn(d.dirs, Root, UpdaterOutdatedExe) && !FileIn(d.dirs, Root, UninstallOutdatedExe)
    ensures Frame(old(d.dirs), d.dirs, {Root, Update})
    ensures BinariesKept(old(d.dirs), d.dirs)
    ensures d.version == old(d.version)
  {
    restored := false;
    if !(FileIn(d.dirs, Update, UpdaterExe) && FileIn(d.dirs, Update, UninstallExe)) {
      // "Can't find new installer files, ignoring them"
      return true, false;
    }
    ok := ReplaceBinary(d, UninstallExe, UninstallOutdatedExe);
    if ok {
      ghost var half := d.dirs;
      ok := ReplaceBinary(d, UpdaterExe, UpdaterOutdatedExe);
      if ok {
        assert (UpdaterExe in half[Root]) == (UpdaterExe in old(d.dirs)[Root]);
        assert d.dirs[Root] == SwappedRoot(old(d.dirs)[Root]);
        assert d.dirs[Update] == old(d.dirs)[Update] - {UpdaterExe, UninstallExe};
      }
    }
    if !ok {
      var updaterBack, uninstallBack := RestoreBinaries(d);
      restored := updaterBack && uninstallBack;
    }
  }

  /** Either the live binary or its backup is in the root directory. */
  predicate Present(m: map<Area, set<Name>>, live: Name, backup: Name)
  {
    FileIn(m, Root, live) || FileIn(m, Root, backup)
  }

  /**
   * The root directory after the moves back: `updater_outdated.exe` over
   * `updater.exe`, then, when `both`, `uninstall_outdated.exe` over
   * `uninstall.exe`.
   */
  function RestoredRoot(root: set<Name>, both: bool): (r: set<Name>)
    ensures UpdaterExe in r && UpdaterOutdatedExe !in r
    ensures both ==> UninstallExe in r && UninstallOutdatedExe !in r
    ensures !both ==> (UninstallExe in r <==> UninstallExe in root) &&
                      (UninstallOutdatedExe in r <==> UninstallOutdatedExe in root)
    ensures forall n :: n !in {UpdaterExe, UpdaterOutdatedExe, UninstallExe, UninstallOutdatedExe} ==>
      (n in r <==> n in root)
  {
    var first := root - {UpdaterOutdatedExe} + {UpdaterExe};
    if both then first - {UninstallOutdatedExe} + {UninstallExe} else first
  }

  /**
   * Lines 131-135: `updater_outdated.exe` moved back to `updater.exe`, then
   * `uninstall_outdated.exe` to `uninstall.exe`; the second move is skipped
   * when the first one raises.
   */
  method RestoreBinaries(d: Disk) returns (updaterBack: bool, uninstallBack: bool)
    modifies d
    ensures updaterBack == (old(d.clock) !in d.faults && FileIn(old(d.dirs), Root, UpdaterOutdatedExe))
    ensures !updaterBack ==> !uninstallBack && d.dirs == old(d.dirs)
    ensures updaterBack ==>
      uninstallBack == (old(d.clock) + 1 !in d.faults && UninstallOutdatedExe in old(d.dirs)[Root]) &&
      d.dirs == old(d.dirs)[Root := RestoredRoot(old(d.dirs)[Root], uninstallBack)]
    ensures Frame(old(d.dirs), d.dirs, {Root})
    ensures Present(old(d.dirs), UpdaterExe, UpdaterOutdatedExe) ==> Present(d.dirs, UpdaterExe, UpdaterOutdatedExe)
    ensures Present(old(d.dirs), UninstallExe, UninstallOutdatedExe) ==> Present(d.dirs, UninstallExe, UninstallOutdatedExe)
    ensures d.version == old(d.version)
  {
    uninstallBack := false;
    updaterBack := d.Move(Root, UpdaterOutdatedExe, Root, UpdaterExe);
    if updaterBack {
      uninstallBack := d.Move(Root, UninstallOutdatedExe, Root, UninstallExe);
    }
  }

  /** Lines 150-154: `latest/` removed if it exists and made again, empty. */
  method EmptyLatest(d: Disk) returns (ok: bool)
    modifies d
    ensures ok ==> d.dirs == old(d.dirs)[Latest := {}]
    ensures !ok ==> Frame(old(d.dirs), d.dirs, {Latest})
    ensures d.version == old(d.version)
  {
    if Latest in d.dirs {
      ok := d.Rmtree(Latest);
      if !ok {
        return;
      }
      assert d.dirs == old(d.dirs) - {Latest};
    }
    ok := d.Mkdir(Latest);
    if ok {
      assert d.dirs == old(d.dirs)[Latest := {}];
    }
  }

  /** After every entry of `outdated/` moved into `latest/`, `latest/` holds both. */
  lemma MovedOut(m0: map<Area, set<Name>>, moved: map<Area, set<Name>>)
    requires Latest in m0 && Outdated in m0 && Latest in moved && Outdated in moved
    requires moved == m0[Outdated := moved[Outdated]][Latest := moved[Latest]]
    requires moved[Outdated] == {} && moved[Latest] == m0[Latest] + (m0[Outdated] - moved[Outdated])
    ensures moved == m0[Outdated := {}][Latest := m0[Latest] + m0[Outdated]]
  {
    assert m0[Outdated] - moved[Outdated] == m0[Outdated];
  }

  /** Removing the emptied `outdated/` then leaves the old tree without it and `latest/` holding both. */
  lemma RemovedAfterMove(m0: map<Area, set<Name>>, moved: map<Area, set<Name>>, m2: map<Area, set<Name>>)
    requires Latest in m0 && Outdated in m0
    requires moved == m0[Outdated := {}][Latest := m0[Latest] + m0[Outdated]]
    requires m2 == WithoutTree(moved, Outdated)
    ensures m2 == WithoutTree(m0, Outdated)[Latest := m0[Latest] + m0[Outdated]]
  {
    var want := WithoutTree(m0, Outdated)[Latest := m0[Latest] + m0[Outdated]];
    assert m2.Keys == want.Keys;
    assert forall a :: a in m2 ==> m2[a] == want[a];
  }

  /**
   * Lines 155-157: every entry of `outdated/` moved into `latest/`, then
   * `outdated/` removed.
   */
  method ReturnOutdated(d: Disk) returns (ok: bool)
    requires Latest in d.dirs
    modifies d
    ensures ok ==> (Outdated in old(d.dirs) &&
      d.dirs == WithoutTree(old(d.dirs), Outdated)[Latest := old(d.dirs)[Latest] + old(d.dirs)[Outdated]])
    ensures Outdated in old(d.dirs) && !ok ==> Outdated in d.dirs
    ensures Frame(old(d.dirs), d.dirs, {Latest, Outdated})
    ensures Latest in d.dirs && old(d.dirs)[Latest] <= d.dirs[Latest]
    ensures EntriesOf(old(d.dirs), Outdated) <= d.dirs[Latest] + EntriesOf(d.dirs, Outdated)
    ensures Outdated in old(d.dirs) ==> (ok <==> d.Healthy(old(d.clock), d.clock))
    ensures d.clock >= old(d.clock) && d.version == old(d.version)
  {
    ok := d.MoveAll(Outdated, Latest);
    if !ok {
      return;
    }
    ghost var moved := d.dirs;
    ghost var m0 := old(d.dirs);
    MovedOut(m0, moved);
    ok := d.Rmtree(Outdated);
    if ok {
      RemovedAfterMove(m0, moved, d.dirs);
    } else {
      assert Latest in d.dirs && d.dirs[Latest] == moved[Latest];
    }
  }

  /** Lines 146-160: put the rotated payload back into an emptied `latest/`. */
  method Recover(d: Disk) returns (ok: bool)
    modifies d
    ensures ok ==> (Outdated in old(d.dirs) &&
                    d.dirs == WithoutTree(old(d.dirs), Outdated)[Latest := old(d.dirs)[Outdated]])
    ensures Frame(old(d.dirs), d.dirs, {Latest, Outdated})
    ensures EntriesOf(old(d.dirs), Outdated) <= EntriesOf(d.dirs, Latest) + EntriesOf(d.dirs, Outdated)
    ensures d.version == old(d.version)
  {
    ok := EmptyLatest(d);
    if !ok {
      return;
    }
    ghost var emptied := d.dirs;
    ok := ReturnOutdated(d);
    if ok {
      ghost var want := WithoutTree(old(d.dirs), Outdated)[Latest := old(d.dirs)[Outdated]];
      assert d.dirs.Keys == want.Keys;
      assert forall a :: a in d.dirs ==> d.dirs[a] == want[a];
    }
  }

  /** Lines 103-139: move the staged payload into the emptied `latest/`, then swap the binaries. */
  /** Lines 103-112: move every staged entry of `update/latest/` into the emptied `latest/`. */
  method MoveStaged(d: Disk) returns (ok: bool)
    requires Latest in d.dirs && d.dirs[Latest] == {}
    modifies d
    ensures ok ==> Latest in d.dirs && d.dirs[Latest] == EntriesOf(old(d.dirs), UpdateLatest)
    ensures ok ==> Agree(old(d.dirs), d.dirs, Root) && Agree(old(d.dirs), d.dirs, Update)
    ensures ok ==> BothStaged(d.dirs) == BothStaged(old(d.dirs))
    ensures Frame(old(d.dirs), d.dirs, {Latest, UpdateLatest})
    ensures BinariesKept(old(d.dirs), d.dirs)
    ensures d.version == old(d.version)
  {
    ok := true;
    if UpdateLatest in d.dirs {
      ok := d.MoveAll(UpdateLatest, Latest);
    }
  }

  method InstallNewFiles(d: Disk) returns (ok: bool)
    requires Latest in d.dirs && d.dirs[Latest] == {}
    modifies d
    ensures ok ==> Latest in d.dirs && d.dirs[Latest] == EntriesOf(old(d.dirs), UpdateLatest)
    ensures ok && BothStaged(old(d.dirs)) ==>
      Root in old(d.dirs) && Root in d.dirs && d.dirs[Root] == SwappedRoot(old(d.dirs)[Root])
    ensures ok && !BothStaged(old(d.dirs)) ==>
      Agree(old(d.dirs), d.dirs, Root) && Agree(old(d.dirs), d.dirs, Update)
    ensures Frame(old(d.dirs), d.dirs, {Latest, UpdateLatest, Root, Update})
    ensures BinariesKept(old(d.dirs), d.dirs)
    ensures d.version == old(d.version)
  {
    ok := MoveStaged(d);
    if !ok {
      return;
    }
    ghost var moved := d.dirs;
    var restored;
    ok, restored := SwapBinaries(d);
    assert Agree(moved, d.dirs, Latest);
  }

  /**
   * Lines 99-160 from `outdatedSet = 1` on: install the staged files into
   * the emptied `latest/`, and when that fails put the rotated payload back.
   */
  method InstallOrRecover(d: Disk) returns (outcome: ApplyOutcome)
    requires Latest in d.dirs && d.dirs[Latest] == {}
    modifies d
    ensures outcome != AbortedBeforeRotation
    ensures outcome == Applied ==>
      Latest in d.dirs && d.dirs[Latest] == EntriesOf(old(d.dirs), UpdateLatest) &&
      Agree(old(d.dirs), d.dirs, Outdated)
    ensures outcome == Applied && BothStaged(old(d.dirs)) ==>
      Root in old(d.dirs) && Root in d.dirs && d.dirs[Root] == SwappedRoot(old(d.dirs)[Root])
    ensures outcome == Applied && !BothStaged(old(d.dirs)) ==>
      Agree(old(d.dirs), d.dirs, Root) && Agree(old(d.dirs), d.dirs, Update)
    ensures outcome == Recovered ==>
      Outdated in old(d.dirs) && Latest in d.dirs && d.dirs[Latest] == old(d.dirs)[Outdated] &&
      Outdated !in d.dirs
    ensures EntriesOf(old(d.dirs), Outdated) <= EntriesOf(d.dirs, Latest) + EntriesOf(d.dirs, Outdated)
    ensures BinariesKept(old(d.dirs), d.dirs)
    ensures Agree(old(d.dirs), d.dirs, UpdateApp)
    ensures d.version == old(d.version)
  {
    var ok := InstallNewFiles(d);
    if ok {
      return Applied;
    }
    ok := Recover(d);
    outcome := if ok then Recovered else RecoveryFailed;
  }

  /**
   * `updateApplication` (lines 57-162). Recovery runs only when the failure
   * comes after the rotation; whatever happens, no entry of the installed
   * payload is lost within the call. A rotation into a fresh `outdated/`
   * fails exactly when one of its calls fails, and then stops as
   * `StoppedRotation` describes.
   */
  method UpdateApplication(d: Disk) returns (outcome: ApplyOutcome)
    modifies d
    ensures outcome == Applied ==>
      Latest in d.dirs && d.dirs[Latest] == EntriesOf(old(d.dirs), UpdateLatest) &&
      (Latest in old(d.dirs) ==> Outdated in d.dirs && d.dirs[Outdated] == old(d.dirs)[Latest]) &&
      (Latest !in old(d.dirs) ==> Outdated !in d.dirs)
    ensures outcome == Applied && BothStaged(old(d.dirs)) ==>
      Root in old(d.dirs) && Root in d.dirs && d.dirs[Root] == SwappedRoot(old(d.dirs)[Root])
    ensures outcome == Applied && !BothStaged(old(d.dirs)) ==>
      Agree(old(d.dirs), d.dirs, Root) && Agree(old(d.dirs), d.dirs, Update)
    ensures outcome == Recovered ==>
      Latest in old(d.dirs) && Latest in d.dirs && d.dirs[Latest] == old(d.dirs)[Latest] &&
      Outdated !in d.dirs
    ensures outcome == AbortedBeforeRotation ==>
      Frame(old(d.dirs), d.dirs, {Latest, Outdated})
    ensures Latest in old(d.dirs) ==>
      old(d.dirs)[Latest] <= EntriesOf(d.dirs, Latest) + EntriesOf(d.dirs, Outdated)
    ensures Latest in old(d.dirs) && Outdated !in old(d.dirs) ==>
      (outcome == AbortedBeforeRotation <==>
         !d.Healthy(old(d.clock), old(d.clock) + 1 + |old(d.dirs)[Latest]|)) &&
      (outcome == AbortedBeforeRotation ==> d.StoppedRotation(old(d.dirs), old(d.clock), d.dirs, d.clock))
    ensures BinariesKept(old(d.dirs), d.dirs)
    ensures Agree(old(d.dirs), d.dirs, UpdateApp)
    ensures d.version == old(d.version)
  {
    var ok := RotateForUpdate(d);
    if !ok {
      return AbortedBeforeRotation;
    }
    // outdatedSet = 1: from here on a failure triggers recovery
    outcome := InstallOrRecover(d);
  }

  /**
   * A run whose third filesystem call fails: `latest/` holds "a" and "b",
   * `mkdir outdated` works, one entry moves and the second move raises.
   * `outdatedSet` is still 0, so nothing is recovered, and the next run's
   * `deleteOutdatedFiles` deletes the entry that had moved. Returns what is
   * left of the two installed entries.
   */
  method RotationFaultThenNextRun() returns (left: set<Name>)
    ensures left < {"a", "b"} && |left| == 1
  {
    var d := new Disk(map[Root := {}, Latest := {"a", "b"}], None, {2});
    var outcome := UpdateApplication(d);
    assert !d.Healthy(0, 3) by {
      assert 2 in d.faults;
    }
    assert outcome == AbortedBeforeRotation;
    assert d.clock == 3 && |d.dirs[Outdated]| == 1;
    assert |d.dirs[Latest]| == 1 by {
      assert |d.dirs[Latest] + d.dirs[Outdated]| == 2;
    }
    ghost var stopped := d.dirs;
    var exited := DeleteOutdatedFiles(d);
    left := EntriesOf(d.dirs, Latest) + EntriesOf(d.dirs, Outdated);
    assert left == stopped[Latest];
  }

  /**
   * `updateApplication` with the rotation undone when it stops part-way:
   * the entries already moved into the fresh `outdated/` go back into
   * `latest/` before the update is given up. Whenever a run aborted before
   * the install leaves no `outdated/`, `latest/` is as it was, so the next
   * run's purge of `outdated/` cannot touch the installed payload; with a
   * single failing call the undo always gets that far.
   */
  method UpdateApplicationUndoingRotation(d: Disk) returns (outcome: ApplyOutcome)
    modifies d
    ensures outcome == Applied ==>
      Latest in d.dirs && d.dirs[Latest] == EntriesOf(old(d.dirs), UpdateLatest)
    ensures outcome == Recovered ==>
      Latest in old(d.dirs) && Latest in d.dirs && d.dirs[Latest] == old(d.dirs)[Latest] &&
      Outdated !in d.dirs
    ensures Latest in old(d.dirs) ==>
      old(d.dirs)[Latest] <= EntriesOf(d.dirs, Latest) + EntriesOf(d.dirs, Outdated)
    ensures Latest in old(d.dirs) && outcome == AbortedBeforeRotation && Outdated !in d.dirs ==>
      Latest in d.dirs && d.dirs[Latest] == old(d.dirs)[Latest]
    ensures Latest in old(d.dirs) && Outdated !in old(d.dirs) ==>
      (outcome == AbortedBeforeRotation <==>
         !d.Healthy(old(d.clock), old(d.clock) + 1 + |old(d.dirs)[Latest]|))
    ensures Latest in old(d.dirs) && Outdated !in old(d.dirs) && outcome == AbortedBeforeRotation ==>
      !d.Healthy(old(d.clock), d.clock) &&
      (d.OneFault(old(d.clock), d.clock) ==> Outdated !in d.dirs)
    ensures BinariesKept(old(d.dirs), d.dirs)
    ensures d.version == old(d.version)
  {
    if Outdated in d.dirs {
      var purged := d.PurgeOutdated();
      if !purged {
        return AbortedBeforeRotation;
      }
    }
    ghost var purgedDirs := d.dirs;
    var ok := d.RotateLatest();
    if !ok {
      if Outdated in d.dirs && Latest in d.dirs {
        // the moves stopped part-way: put back what was moved
        ghost var k := d.clock;
        var back := ReturnOutdated(d);
        if d.OneFault(old(d.clock), d.clock) {
          var t :| old(d.clock) <= t < d.clock && t in d.faults &&
                   d.Healthy(old(d.clock), t) && d.Healthy(t + 1, d.clock);
          assert t == k - 1;
          assert back;
        }
      }
      return AbortedBeforeRotation;
    }
    outcome := InstallOrRecover(d);
  }

  /**
   * The corrected update on the same run as `RotationFaultThenNextRun`:
   * both installed entries are still there after the next run's purge.
   */
  method RotationFaultUndone() returns (left: set<Name>)
    ensures left == {"a", "b"}
  {
    var d := new Disk(map[Root := {}, Latest := {"a", "b"}], None, {2});
    var outcome := UpdateApplicationUndoingRotation(d);
    assert !d.Healthy(0, 3) by {
      assert 2 in d.faults;
    }
    assert outcome == AbortedBeforeRotation;
    assert d.OneFault(0, d.clock) by {
      assert d.Healthy(0, 2) && d.Healthy(3, d.clock);
    }
    var exited := DeleteOutdatedFiles(d);
    left := EntriesOf(d.dirs, Latest) + EntriesOf(d.dirs, Outdated);
  }

  /**
   * `deleteOutdatedFiles` (lines 165-199). Returns true when the process
   * exits because `outdated/` could not be purged; the two `_outdated`
   * binaries are removed on a best-effort basis.
   */
  method DeleteOutdatedFiles(d: Disk) returns (exited: bool)
    modifies d
    ensures exited ==> (Outdated in old(d.dirs) && Frame(old(d.dirs), d.dirs, {Outdated}) &&
      Outdated in d.dirs && d.dirs[Outdated] <= old(d.dirs)[Outdated] &&
      ExeFirst(old(d.dirs)[Outdated], d.dirs[Outdated]))
    ensures (Outdated in old(d.dirs) &&
      d.Healthy(old(d.clock), old(d.clock) + |old(d.dirs)[Outdated]| + 1)) ==> !exited
    ensures !exited ==> Outdated !in d.dirs && Frame(old(d.dirs), d.dirs, {Outdated, Root})
    ensures !exited ==> ((Root in d.dirs <==> Root in old(d.dirs)) &&
                         EntriesOf(d.dirs, Root) <= EntriesOf(old(d.dirs), Root) &&
                         EntriesOf(old(d.dirs), Root) - EntriesOf(d.dirs, Root)
                           <= {UpdaterOutdatedExe, UninstallOutdatedExe})
    ensures d.version == old(d.version)
  {
    exited := false;
    if Outdated in d.dirs {
      var ok := d.PurgeOutdated();
      if !ok {
        return true;
      }
    }
    if FileIn(d.dirs, Root, UpdaterOutdatedExe) {
      var _ := d.Remove(Root, UpdaterOutdatedExe);
    }
    if FileIn(d.dirs, Root, UninstallOutdatedExe) {
      var _ := d.Remove(Root, UninstallOutdatedExe);
    }
  }

  /**
   * `deleteFiles` (lines 202-221): best-effort removal of `update/` and the
   * archive. The `update/` tree only shrinks, and it is gone when its
   * `rmtree` call does not fail.
   */
  method DeleteFiles(d: Disk)
    modifies d
    ensures Frame(old(d.dirs), d.dirs, {Root, Update, UpdateLatest, UpdateApp})
    ensures forall b :: b in TreeOf(Update) && b in d.dirs ==> b in old(d.dirs) && d.dirs[b] <= old(d.dirs)[b]
    ensures Update in old(d.dirs) && old(d.clock) !in d.faults ==> NoStaging(d.dirs)
    ensures (Root in d.dirs <==> Root in old(d.dirs)) &&
      EntriesOf(d.dirs, Root) <= EntriesOf(old(d.dirs), Root) &&
      EntriesOf(old(d.dirs), Root) - EntriesOf(d.dirs, Root) <= {ArchiveName}
    ensures d.version == old(d.version)
  {
    if Update in d.dirs {
      var _ := d.Rmtree(Update);
    }
    if FileIn(d.dirs, Root, ArchiveName) {
      var _ := d.Remove(Root, ArchiveName);
    }
  }

  /** `downloadUpdate` (lines 29-42): false when no asset matches or the download raises. */
  method DownloadUpdate(d: Disk, assetFound: bool) returns (ok: bool)
    modifies d
    ensures ok ==> assetFound && Root in old(d.dirs) && d.dirs == old(d.dirs)[Root := old(d.dirs)[Root] + {ArchiveName}]
    ensures !ok ==> d.dirs == old(d.dirs)
    ensures d.version == old(d.version)
  {
    if !assetFound {
      return false;
    }
    ok := d.CreateFile(Root, ArchiveName);
  }

  /** `unzipUpdate` (lines 44-55). */
  method UnzipUpdate(d: Disk, files: set<Name>, payload: Option<set<Name>>) returns (ok: bool)
    modifies d
    ensures ok ==> (FileIn(old(d.dirs), Root, ArchiveName) && Update in d.dirs &&
                    EntriesOf(d.dirs, UpdateLatest) == EntriesOf(old(d.dirs), UpdateLatest) + PayloadOf(payload) &&
                    Frame(old(d.dirs), d.dirs, {Update, UpdateLatest}))
    ensures !ok ==> d.dirs == old(d.dirs)
    ensures d.version == old(d.version)
  {
    ok := d.ExtractArchive(ArchiveName, files, UpdateLatest, payload);
  }

  /**
   * The script's main flow (lines 249-315) after the "test" switch. The lock,
   * the GitHub release (its tag, or None when the request fails or cannot be
   * parsed), whether the release has the archive asset, and the archive's
   * contents are inputs. Returns the exit status (0 when the script ends normally).
   */
  method RunScript(d: Disk, lockTaken: bool, release: Option<string>, assetFound: bool,
              files: set<Name>, payload: Option<set<Name>>) returns (exitCode: int)
    modifies d
    ensures !lockTaken ==> exitCode == -1 && d.dirs == old(d.dirs) && d.version == old(d.version)
    ensures release.None? ==> exitCode == -1 && d.version == old(d.version)
    ensures d.version != old(d.version) ==>
      release.Some? && d.version == Some(release.value) && exitCode == 0 &&
      Latest in d.dirs && d.dirs[Latest] == EntriesOf(old(d.dirs), UpdateLatest) + PayloadOf(payload)
    ensures release.Some? && release.value == InstalledVersion(old(d.version)) ==>
      d.version == old(d.version) && Agree(old(d.dirs), d.dirs, Latest) &&
      Agree(old(d.dirs), d.dirs, UpdateLatest)
    ensures exitCode == 0 && release.Some? && release.value != InstalledVersion(old(d.version)) ==>
      Latest in d.dirs && d.dirs[Latest] == EntriesOf(old(d.dirs), UpdateLatest) + PayloadOf(payload)
    ensures exitCode == 0 || exitCode == -1
  {
    if !lockTaken {
      return -1;
    }
    var exited := DeleteOutdatedFiles(d);
    if exited {
      return -1;
    }
    var installed := InstalledVersion(d.version);
    if release.None? {
      return -1;
    }
    var latestVersion := release.value;
    if latestVersion == installed {
      // "Up to date"
      return 0;
    }
    var ok := DownloadUpdate(d, assetFound);
    if ok {
      ok := UnzipUpdate(d, files, payload);
    }
    if ok {
      var outcome := UpdateApplication(d);
      ok := outcome == Applied;
    }
    DeleteFiles(d);
    if !ok {
      return -1;
    }
    var _ := d.WriteVersion(latestVersion);
    return 0;
  }
}
