// The installation directory as the two Python updaters see it: a handful of
// directories ("areas"), each holding a set of entry names, plus the text of
// the `version` file. Every primitive filesystem call may fail; whether the
// k-th call fails is decided by a fault oracle fixed when the disk is made.

module Disk {

  import opened Wrappers

  type Name = string

  /** The directories the updaters touch, relative to the installation root. */
  datatype Area = Root | Latest | Outdated | Update | UpdateLatest | UpdateApp

  /** `update/latest` and `update/app` live inside `update/`. */
  predicate Inside(child: Area, parent: Area)
  {
    child == parent || (parent == Update && (child == UpdateLatest || child == UpdateApp))
  }

  /** Name of the file whose name ends in ".exe". */
  predicate IsExe(n: Name)
  {
    |n| >= 4 && n[|n| - 4..] == ".exe"
  }

  const UpdaterExe: Name := "updater.exe"
  const UninstallExe: Name := "uninstall.exe"
  const UpdaterOutdatedExe: Name := "updater_outdated.exe"
  const UninstallOutdatedExe: Name := "uninstall_outdated.exe"

  /** The entries of `a`, or none when `a` does not exist. */
  function EntriesOf(m: map<Area, set<Name>>, a: Area): (r: set<Name>)
    ensures a !in m ==> r == {}
    ensures a in m ==> r == m[a]
  {
    if a in m then m[a] else {}
  }

  /** The entries of an archive's payload folder, none when it has none. */
  function PayloadOf(payload: Option<set<Name>>): set<Name>
  {
    if payload.Some? then payload.value else {}
  }

  /** `os.path.exists(a/n)`. */
  predicate FileIn(m: map<Area, set<Name>>, a: Area, n: Name)
  {
    a in m && n in m[a]
  }

  /** The directory map after `a` and everything inside it is gone. */
  function WithoutTree(m: map<Area, set<Name>>, a: Area): (r: map<Area, set<Name>>)
    ensures forall b :: b in r <==> b in m && !Inside(b, a)
    ensures forall b :: b in r ==> r[b] == m[b]
  {
    map b | b in m && !Inside(b, a) :: m[b]
  }

  /** Directory `a` exists in both maps or in neither, with the same entries. */
  predicate Agree(m1: map<Area, set<Name>>, m2: map<Area, set<Name>>, a: Area)
  {
    (a in m1 <==> a in m2) && (a in m1 ==> m1[a] == m2[a])
  }

  /** Only the directories in `changed` may differ between `m1` and `m2`. */
  predicate Frame(m1: map<Area, set<Name>>, m2: map<Area, set<Name>>, changed: set<Area>)
  {
    (Root !in changed ==> Agree(m1, m2, Root)) &&
    (Latest !in changed ==> Agree(m1, m2, Latest)) &&
    (Outdated !in changed ==> Agree(m1, m2, Outdated)) &&
    (Update !in changed ==> Agree(m1, m2, Update)) &&
    (UpdateLatest !in changed ==> Agree(m1, m2, UpdateLatest)) &&
    (UpdateApp !in changed ==> Agree(m1, m2, UpdateApp))
  }

  /** `a` together with the directories inside it. */
  function TreeOf(a: Area): (r: set<Area>)
    ensures forall b :: b in r <==> Inside(b, a)
  {
    if a == Update then {Update, UpdateLatest, UpdateApp} else {a}
  }

  /**
   * What a failed `shutil.rmtree(a)` may leave behind: it deletes entry by
   * entry and `a` itself last, so `a` is still there, it and the
   * directories inside it may have lost any of their entries (an inner
   * directory possibly all of itself), and nothing outside the tree changed.
   */
  predicate PartlyRemoved(m1: map<Area, set<Name>>, m2: map<Area, set<Name>>, a: Area)
  {
    a in m1 && a in m2 && Frame(m1, m2, TreeOf(a)) &&
    forall b :: b in TreeOf(a) && b in m2 ==> b in m1 && m2[b] <= m1[b]
  }

  /** No entry that is not an ".exe" is gone while an ".exe" entry is left. */
  predicate ExeFirst(before: set<Name>, after: set<Name>)
  {
    (forall n :: n in before && !IsExe(n) ==> n in after) ||
    (forall n :: n in after ==> !IsExe(n))
  }

  /** A map that differs from another only at `a`, which both have, is that map with `a` replaced. */
  lemma FrameOne(m1: map<Area, set<Name>>, m2: map<Area, set<Name>>, a: Area)
    requires Frame(m1, m2, {a}) && a in m1 && a in m2
    ensures m2 == m1[a := m2[a]]
  {
    var r := m1[a := m2[a]];
    forall b
      ensures (b in m2 <==> b in r) && (b in m2 ==> m2[b] == r[b])
    {
      if b != a {
        match b
        case Root =>
        case Latest =>
        case Outdated =>
        case Update =>
        case UpdateLatest =>
        case UpdateApp =>
      }
    }
    assert m2.Keys == r.Keys;
  }

  /** The `update/` tree is gone. */
  predicate NoStaging(m: map<Area, set<Name>>)
  {
    Update !in m && UpdateLatest !in m && UpdateApp !in m
  }

  /** Removing a subset takes away exactly its size. */
  lemma DiffCard(a: set<Name>, b: set<Name>)
    requires b <= a
    ensures |a - b| == |a| - |b|
  {
    assert a == (a - b) + b;
  }

  class Disk {
    var dirs: map<Area, set<Name>>
    /** Content of the `version` file, None when it does not exist. */
    var version: Option<string>
    /** Number of primitive calls made so far. */
    var clock: nat
    /** The primitive calls (by number) that fail. */
    const faults: set<nat>

    constructor (dirs0: map<Area, set<Name>>, version0: Option<string>, faults0: set<nat>)
      ensures dirs == dirs0 && version == version0 && clock == 0 && faults == faults0
    {
      dirs := dirs0;
      version := version0;
      clock := 0;
      faults := faults0;
    }

    /** None of the primitive calls numbered `lo` up to `hi - 1` fails. */
    predicate Healthy(lo: nat, hi: nat)
    {
      forall t :: lo <= t < hi ==> t !in faults
    }

    /** The calls from `lo` to `hi` are healthy exactly when both parts split at `mid` are. */
    lemma HealthySplit(lo: nat, mid: nat, hi: nat)
      requires lo <= mid <= hi
      ensures Healthy(lo, hi) <==> Healthy(lo, mid) && Healthy(mid, hi)
    {
    }

    /** Exactly one of the calls numbered `lo` up to `hi - 1` fails. */
    predicate OneFault(lo: nat, hi: nat)
    {
      exists t :: lo <= t < hi && t in faults && Healthy(lo, t) && Healthy(t + 1, hi)
    }

    /**
     * How a rotation of `latest/` into a fresh `outdated/`, started at call
     * `c` on `m0`, can stop at call `k` with `m`: either `mkdir` failed and
     * nothing changed, or the move of an entry failed after the first
     * `k - c - 2` entries had been moved, so that `latest/` and `outdated/`
     * split the old entries between them.
     */
    predicate StoppedRotation(m0: map<Area, set<Name>>, c: nat, m: map<Area, set<Name>>, k: nat)
      requires Latest in m0
    {
      (c in faults && k == c + 1 && m == m0) ||
      (c + 2 <= k && Healthy(c, k - 1) && k - 1 in faults &&
       Latest in m && Outdated in m && m == m0[Latest := m[Latest]][Outdated := m[Outdated]] &&
       m[Latest] != {} && m[Latest] !! m[Outdated] && m[Latest] + m[Outdated] == m0[Latest] &&
       |m[Outdated]| == k - c - 2)
    }

    /** Consumes one tick of the fault oracle and says whether this call is healthy. */
    method Tick() returns (healthy: bool)
      modifies this
      ensures healthy == (old(clock) !in faults)
      ensures clock == old(clock) + 1
      ensures dirs == old(dirs) && version == old(version)
    {
      healthy := clock !in faults;
      clock := clock + 1;
    }

    /** `os.mkdir(a)`: fails when `a` already exists. */
    method Mkdir(a: Area) returns (ok: bool)
      modifies this
      ensures ok == (old(clock) !in faults && a !in old(dirs))
      ensures ok ==> dirs == old(dirs)[a := {}]
      ensures !ok ==> dirs == old(dirs)
      ensures clock == old(clock) + 1 && version == old(version)
    {
      ok := Tick();
      ok := ok && a !in dirs;
      if ok {
        dirs := dirs[a := {}];
      }
    }

    /**
     * `shutil.rmtree(a)`: removes `a` and everything inside it; it raises at
     * once when `a` is missing, and a failure on the way leaves part of the
     * tree behind.
     */
    method Rmtree(a: Area) returns (ok: bool)
      modifies this
      ensures ok == (old(clock) !in faults && a in old(dirs))
      ensures ok ==> dirs == WithoutTree(old(dirs), a)
      ensures !ok && a !in old(dirs) ==> dirs == old(dirs)
      ensures !ok && a in old(dirs) ==> PartlyRemoved(old(dirs), dirs, a)
      ensures clock == old(clock) + 1 && version == old(version)
    {
      ok := Tick();
      if a !in dirs {
        ok := false;
        return;
      }
      if ok {
        dirs := WithoutTree(dirs, a);
      } else {
        assert PartlyRemoved(dirs, dirs, a);
        var left :| PartlyRemoved(dirs, left, a);
        dirs := left;
      }
    }

    /** `os.remove(a/n)`: fails when the file is missing. */
    method Remove(a: Area, n: Name) returns (ok: bool)
      modifies this
      ensures ok == (old(clock) !in faults && FileIn(old(dirs), a, n))
      ensures ok ==> dirs == old(dirs)[a := old(dirs)[a] - {n}]
      ensures !ok ==> dirs == old(dirs)
      ensures clock == old(clock) + 1 && version == old(version)
    {
      ok := Tick();
      ok := ok && FileIn(dirs, a, n);
      if ok {
        dirs := dirs[a := dirs[a] - {n}];
      }
    }

    /**
     * `shutil.move(a/n, b/m)`: fails when the source is missing or the target
     * directory does not exist; an existing target file is overwritten.
     */
    method Move(a: Area, n: Name, b: Area, m: Name) returns (ok: bool)
      modifies this
      ensures ok == (old(clock) !in faults && FileIn(old(dirs), a, n) && b in old(dirs))
      ensures ok && a == b ==> dirs == old(dirs)[a := old(dirs)[a] - {n} + {m}]
      ensures ok && a != b ==> dirs == old(dirs)[a := old(dirs)[a] - {n}][b := old(dirs)[b] + {m}]
      ensures !ok ==> dirs == old(dirs)
      ensures clock == old(clock) + 1 && version == old(version)
    {
      ok := Tick();
      ok := ok && FileIn(dirs, a, n) && b in dirs;
      if ok {
        if a == b {
          dirs := dirs[a := dirs[a] - {n} + {m}];
        } else {
          dirs := dirs[a := dirs[a] - {n}][b := dirs[b] + {m}];
        }
      }
    }

    /** Creates (or overwrites) the file `a/n`, e.g. the downloaded archive. */
    method CreateFile(a: Area, n: Name) returns (ok: bool)
      modifies this
      ensures ok == (old(clock) !in faults && a in old(dirs))
      ensures ok ==> dirs == old(dirs)[a := old(dirs)[a] + {n}]
      ensures !ok ==> dirs == old(dirs)
      ensures clock == old(clock) + 1 && version == old(version)
    {
      ok := Tick();
      ok := ok && a in dirs;
      if ok {
        dirs := dirs[a := dirs[a] + {n}];
      }
    }

    /** Writes the `version` file. */
    method WriteVersion(text: string) returns (ok: bool)
      modifies this
      ensures ok == (old(clock) !in faults)
      ensures ok ==> version == Some(text)
      ensures !ok ==> version == old(version)
      ensures clock == old(clock) + 1 && dirs == old(dirs)
    {
      ok := Tick();
      if ok {
        version := Some(text);
      }
    }

    /**
     * `for file in os.listdir(src): shutil.move(src/file, dst/file)`.
     * Whatever the listing order and wherever a move fails, every entry that
     * left `src` arrived in `dst`, and no other directory changed.
     */
    method MoveAll(src: Area, dst: Area) returns (ok: bool)
      requires src != dst
      modifies this
      ensures ok <==> src in dirs && dirs[src] == {}
      ensures src in old(dirs) && dst in old(dirs) ==>
        src in dirs && dst in dirs &&
        dirs == old(dirs)[src := dirs[src]][dst := dirs[dst]] &&
        dirs[src] <= old(dirs)[src] &&
        dirs[dst] == old(dirs)[dst] + (old(dirs)[src] - dirs[src])
      ensures !(src in old(dirs) && dst in old(dirs)) ==> dirs == old(dirs)
      ensures src in old(dirs) && dst in old(dirs) ==>
        (ok <==> Healthy(old(clock), clock)) &&
        (ok ==> clock == old(clock) + |old(dirs)[src]|) &&
        (!ok ==> old(clock) < clock && Healthy(old(clock), clock - 1) && clock - 1 in faults &&
                 |old(dirs)[src] - dirs[src]| == clock - old(clock) - 1)
      ensures clock >= old(clock) && version == old(version)
    {
      if src !in dirs {
        // os.listdir raises on a missing directory
        ok := Tick();
        ok := false;
        return;
      }
      if dst !in dirs {
        // the first shutil.move raises; an empty listing moves nothing
        if dirs[src] != {} {
          var f :| f in dirs[src];
          var _ := Move(src, f, dst, f);
        }
        ok := dirs[src] == {};
        return;
      }
      var listing := dirs[src];
      var pending := listing;
      ghost var d0 := dirs;
      assert d0[dst] + (listing - pending) == d0[dst];
      assert dirs == d0[src := pending][dst := d0[dst] + (listing - pending)];
      while pending != {}
        invariant pending <= listing
        invariant src in dirs && dst in dirs
        invariant dirs == d0[src := pending][dst := d0[dst] + (listing - pending)]
        invariant clock >= old(clock) && version == old(version)
        invariant clock - old(clock) + |pending| == |listing| && Healthy(old(clock), clock)
        decreases pending
      {
        var f :| f in pending;
        var moved := Move(src, f, dst, f);
        if !moved {
          DiffCard(listing, pending);
          ok := false;
          return;
        }
        assert d0[dst] + (listing - (pending - {f})) == d0[dst] + (listing - pending) + {f};
        pending := pending - {f};
      }
      ok := true;
    }

    /**
     * Moves every entry of `latest/` into a freshly made `outdated/`, or
     * creates `latest/` when there is none.
     */
    method RotateLatest() returns (ok: bool)
      requires Outdated !in dirs
      modifies this
      ensures ok && Latest in old(dirs) ==>
        dirs == old(dirs)[Latest := {}][Outdated := old(dirs)[Latest]]
      ensures ok && Latest !in old(dirs) ==> dirs == old(dirs)[Latest := {}]
      ensures Frame(old(dirs), dirs, {Latest, Outdated})
      ensures Latest in old(dirs) ==>
        Latest in dirs && old(dirs)[Latest] <= dirs[Latest] + EntriesOf(dirs, Outdated)
      ensures Latest in old(dirs) ==>
        (ok <==> Healthy(old(clock), old(clock) + 1 + |old(dirs)[Latest]|)) &&
        (ok ==> clock == old(clock) + 1 + |old(dirs)[Latest]|) &&
        (!ok ==> StoppedRotation(old(dirs), old(clock), dirs, clock))
      ensures Latest !in old(dirs) ==> (ok <==> old(clock) !in faults) && clock == old(clock) + 1
      ensures version == old(version)
    {
      if Latest in dirs {
        ok := Mkdir(Outdated);
        if !ok {
          return;
        }
        ghost var made := dirs;
        ghost var c1 := clock;
        ok := MoveAll(Latest, Outdated);
        if ok {
          assert dirs[Outdated] == old(dirs)[Latest];
          assert dirs == made[Latest := {}][Outdated := old(dirs)[Latest]];
          HealthySplit(old(clock), c1, clock);
        } else {
          assert dirs[Outdated] == old(dirs)[Latest] - dirs[Latest];
          assert clock - 1 in faults && c1 <= clock - 1 <= old(clock) + |old(dirs)[Latest]|;
          HealthySplit(old(clock), c1, clock - 1);
        }
      } else {
        ok := Mkdir(Latest);
      }
    }

    /**
     * Empties and removes `outdated/`: first every ".exe" entry is deleted, so
     * that resource files are never removed while an outdated executable could
     * still be running, then the whole tree. It fails only when a call fails,
     * and a failure never leaves an ".exe" entry behind a removed resource file.
     */
    method PurgeOutdated() returns (ok: bool)
      requires Outdated in dirs
      modifies this
      ensures ok ==> dirs == WithoutTree(old(dirs), Outdated)
      ensures !ok ==> Outdated in dirs && dirs == old(dirs)[Outdated := dirs[Outdated]] &&
                      dirs[Outdated] <= old(dirs)[Outdated] &&
                      ExeFirst(old(dirs)[Outdated], dirs[Outdated])
      ensures ok <==> Healthy(old(clock), clock)
      ensures old(clock) < clock <= old(clock) + |old(dirs)[Outdated]| + 1
      ensures version == old(version)
    {
      var listing := dirs[Outdated];
      var pending := listing;
      ghost var d0 := dirs;
      while pending != {}
        invariant pending <= listing
        invariant Outdated in dirs && dirs == d0[Outdated := dirs[Outdated]]
        invariant dirs[Outdated] <= listing
        invariant forall n :: n in listing && !IsExe(n) ==> n in dirs[Outdated]
        invariant forall n :: n in listing - pending && IsExe(n) ==> n !in dirs[Outdated]
        invariant forall n :: n in pending ==> n in dirs[Outdated]
        invariant old(clock) <= clock && clock - old(clock) + |pending| <= |listing|
        invariant Healthy(old(clock), clock) && version == old(version)
        decreases pending
      {
        var f :| f in pending;
        if IsExe(f) {
          ok := Remove(Outdated, f);
          if !ok {
            return;
          }
        }
        pending := pending - {f};
      }
      ghost var emptied := dirs;
      ok := Rmtree(Outdated);
      if !ok {
        FrameOne(emptied, dirs, Outdated);
        assert forall n :: n in dirs[Outdated] ==> n in emptied[Outdated] && !IsExe(n);
      }
    }

    /**
     * `zipfile.ZipFile(zip).extractall("update")`: the archive's top-level
     * files land in `update/`, its payload folder (if any) in `folder`.
     */
    method ExtractArchive(zip: Name, files: set<Name>, folder: Area, payload: Option<set<Name>>)
      returns (ok: bool)
      requires folder == UpdateLatest || folder == UpdateApp
      modifies this
      ensures ok == (old(clock) !in faults && FileIn(old(dirs), Root, zip))
      ensures ok && payload.None? ==>
        dirs == old(dirs)[Update := EntriesOf(old(dirs), Update) + files]
      ensures ok && payload.Some? ==>
        dirs == old(dirs)[Update := EntriesOf(old(dirs), Update) + files]
                         [folder := EntriesOf(old(dirs), folder) + payload.value]
      ensures !ok ==> dirs == old(dirs)
      ensures clock == old(clock) + 1 && version == old(version)
    {
      ok := Tick();
      ok := ok && FileIn(dirs, Root, zip);
      if ok {
        dirs := dirs[Update := EntriesOf(dirs, Update) + files];
        if payload.Some? {
          dirs := dirs[folder := EntriesOf(dirs, folder) + payload.value];
        }
      }
    }
  }

  /**
   * The first step of both updaters' update: purge any old `outdated/`,
   * then move the entries of `latest/` into a fresh `outdated/`, or create
   * an empty `latest/` when there is none.
   */
  method RotateForUpdate(d: Disk) returns (ok: bool)
    modifies d
    ensures ok ==> Latest in d.dirs && d.dirs[Latest] == {}
    ensures ok && Latest in old(d.dirs) ==> Outdated in d.dirs && d.dirs[Outdated] == old(d.dirs)[Latest]
    ensures ok && Latest !in old(d.dirs) ==> Outdated !in d.dirs
    ensures Frame(old(d.dirs), d.dirs, {Latest, Outdated})
    ensures Latest in old(d.dirs) ==>
      Latest in d.dirs && old(d.dirs)[Latest] <= d.dirs[Latest] + EntriesOf(d.dirs, Outdated)
    ensures ok <==> d.Healthy(old(d.clock), d.clock)
    ensures Latest in old(d.dirs) && Outdated !in old(d.dirs) ==>
      (ok <==> d.Healthy(old(d.clock), old(d.clock) + 1 + |old(d.dirs)[Latest]|)) &&
      (!ok ==> d.StoppedRotation(old(d.dirs), old(d.clock), d.dirs, d.clock))
    ensures d.version == old(d.version)
  {
    ok := true;
    ghost var c0 := d.clock;
    if Outdated in d.dirs {
      ok := d.PurgeOutdated();
      if !ok {
        return;
      }
    }
    ghost var c1 := d.clock;
    ok := d.RotateLatest();
    d.HealthySplit(c0, c1, d.clock);
  }
}
