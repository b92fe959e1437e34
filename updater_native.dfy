// The in-application updater thread (`RunUpdater`): early exits, the GitHub
// query and download with their retries, the status shown to the user, the
// move of the installation into `outdated/` (trying up to ten targets), and
// the revert when the new files cannot be moved into place. Network and
// filesystem calls are oracles: their results are inputs.

module NativeUpdater {
  import opened Wrappers

  /** UPDATE_MAX_ATTEMPTS */
  const MaxAttempts: nat := 10

  const OutdatedDirectory: string := "outdated/"
  const TempSuffix: string := "temp/"

  datatype UpdateStatus = Nothing | Initializing | Downloading | Extracting | Installing | Done | Failed

  /** What the release endpoint answered once the connection worked; "" for a missing field. */
  datatype Response = Response(tag: string, link: string)

  /** The pair `GetLatestGithubRelease` returns, and how many requests it made. */
  datatype Fetched = Fetched(tag: string, link: string, requests: nat)

  /** The answer to request number `k`, None when the connection failed. */
  function Answer(answers: seq<Option<Response>>, k: nat): Option<Response>
  {
    if k < |answers| then answers[k] else None
  }

  /**
   * `GetLatestGithubRelease(url, attempt)` (lines 35-76): retries a failed
   * connection while `attempt < MaxAttempts`, and yields ("", "") unless the
   * first connection that works names both a tag and a download link.
   */
  function LatestRelease(answers: seq<Option<Response>>, attempt: nat): (r: Fetched)
    ensures 1 <= r.requests <= (if attempt < MaxAttempts then MaxAttempts + 1 - attempt else 1)
    ensures forall j :: attempt <= j < attempt + r.requests - 1 ==> Answer(answers, j).None?
    ensures (r.tag == "") == (r.link == "")
    ensures r.tag != "" ==> Answer(answers, attempt + r.requests - 1) == Some(Response(r.tag, r.link))
    ensures Answer(answers, attempt + r.requests - 1).None? ==> attempt + r.requests - 1 >= MaxAttempts
    ensures (Answer(answers, attempt + r.requests - 1).Some? && Answer(answers, attempt + r.requests - 1).value.tag != "" &&
             Answer(answers, attempt + r.requests - 1).value.link != "") ==> r.tag != ""
    decreases MaxAttempts - attempt
  {
    match Answer(answers, attempt)
    case None =>
      if attempt < MaxAttempts then
        var next := LatestRelease(answers, attempt + 1);
        next.(requests := next.requests + 1)
      else
        Fetched("", "", 1)
    case Some(resp) =>
      if resp.tag == "" || resp.link == "" then Fetched("", "", 1)
      else Fetched(resp.tag, resp.link, 1)
  }

  /** Whether download attempt `k` works. */
  function Downloaded(results: seq<bool>, k: nat): bool
  {
    k < |results| && results[k]
  }

  /**
   * `DownloadUpdate(url, file, attempt)` as written (lines 78-101): the
   * result of the recursive retry is discarded and control falls through to
   * `return true`, so only the innermost attempt can report failure.
   */
  function DownloadAsWritten(results: seq<bool>, attempt: nat): (r: bool)
    ensures !r ==> attempt >= MaxAttempts && !Downloaded(results, attempt)
    decreases MaxAttempts - attempt
  {
    if !Downloaded(results, attempt) then
      if attempt < MaxAttempts then
        var _ := DownloadAsWritten(results, attempt + 1);
        true
      else
        false
    else
      true
  }

  /**
   * The top-level call reports success even when all eleven attempts fail,
   * where the retry that returns its result reports failure.
   */
  lemma DownloadAsWrittenIgnoresFailures()
    ensures forall results :: DownloadAsWritten(results, 0)
    ensures DownloadAsWritten([], 0) && !DownloadWithRetry([], 0)
  {
  }

  /**
   * `DownloadUpdate` with the retry's result returned: true exactly when
   * one of the attempts `attempt..MaxAttempts` works.
   */
  function DownloadWithRetry(results: seq<bool>, attempt: nat): (r: bool)
    ensures r <==> exists k :: attempt <= k <= (if attempt < MaxAttempts then MaxAttempts else attempt) && Downloaded(results, k)
    decreases MaxAttempts - attempt
  {
    if Downloaded(results, attempt) then true
    else if attempt < MaxAttempts then DownloadWithRetry(results, attempt + 1)
    else false
  }

  /** The k-th target of the move into `outdated/`: `outdated/` followed by k times `temp/`. */
  function MoveTarget(rootPath: string, k: nat): (r: string)
    ensures |r| == |rootPath| + |OutdatedDirectory| + k * |TempSuffix|
    ensures r[..|rootPath| + |OutdatedDirectory|] == rootPath + OutdatedDirectory
  {
    if k == 0 then rootPath + OutdatedDirectory else MoveTarget(rootPath, k - 1) + TempSuffix
  }

  /** `tried` lists the first |tried| move targets, in order. */
  predicate TargetsInOrder(rootPath: string, tried: seq<string>)
  {
    forall i :: 0 <= i < |tried| ==> tried[i] == MoveTarget(rootPath, i)
  }

  /** None of the first n move attempts works. */
  predicate NoneMoved(results: seq<bool>, n: nat)
  {
    forall i :: 0 <= i < n ==> !(i < |results| && results[i])
  }

  lemma TargetsInOrderStep(rootPath: string, tried: seq<string>)
    requires TargetsInOrder(rootPath, tried)
    ensures TargetsInOrder(rootPath, tried + [MoveTarget(rootPath, |tried|)])
  {
  }

  lemma NoneMovedStep(results: seq<bool>, n: nat)
    requires NoneMoved(results, n) && !(n < |results| && results[n])
    ensures NoneMoved(results, n + 1)
  {
  }

  /**
   * Lines 220-229: try `MoveDirectory(installPath, target)` with up to ten
   * targets, appending `temp/` after each failure. `results[i]` is whether
   * the i-th attempt works.
   */
  method MoveInstallToOutdated(rootPath: string, results: seq<bool>) returns (tried: seq<string>, moved: bool)
    ensures 1 <= |tried| <= 10
    ensures forall i :: 0 <= i < |tried| ==> tried[i] == MoveTarget(rootPath, i)
    ensures forall i :: 0 <= i < |tried| - 1 ==> !(i < |results| && results[i])
    ensures moved <==> |tried| - 1 < |results| && results[|tried| - 1]
    ensures !moved ==> |tried| == 10
  {
    var target := rootPath + OutdatedDirectory;
    tried := [];
    moved := false;
    var i := 0;
    while i < 10
      invariant 0 <= i <= 10 && |tried| == i && !moved
      invariant target == MoveTarget(rootPath, i)
      invariant TargetsInOrder(rootPath, tried)
      invariant NoneMoved(results, i)
    {
      TargetsInOrderStep(rootPath, tried);
      tried := tried + [target];
      if i < |results| && results[i] {
        moved := true;
        return;
      }
      NoneMovedStep(results, i);
      target := target + TempSuffix;
      i := i + 1;
    }
  }

  /** The filesystem work `RunUpdater` asks for, in order. */
  datatype Action =
    | DeleteOutdated            // DeleteOutdatedFiles
    | FetchRelease(requests: nat)
    | DownloadPackage
    | ExtractPackage
    | MoveOld(target: string)   // one MoveDirectory(installPath, target) attempt
    | MoveNew                   // MoveDirectory(update/, rootPath)
    | EmptyInstallDir           // PrepareEmptyDirectory(installPath)
    | MoveBack(from: string)    // MoveDirectory(from, installPath)
    | RenameLatest              // RemoveDirectory(installDir) and rename latest/ to it
    | CleanUpdateFiles          // remove update/ and the package

  /** Everything the updater thread learns from the outside world. */
  datatype Environment = Environment(
    installDir: string,           // name of the directory holding the executable
    lockTaken: bool,
    version: string,              // the running application's version
    answers: seq<Option<Response>>,
    downloads: seq<bool>,
    extracted: bool,
    installExists: bool,
    moveOld: seq<bool>,
    moveNew: bool)

  /** The status sequence: INITIALIZING, DOWNLOADING, EXTRACTING, INSTALLING, then DONE. */
  const Phases: seq<UpdateStatus> := [Initializing, Downloading, Extracting, Installing]

  /** A status history the updater thread may produce. */
  predicate WellOrdered(h: seq<UpdateStatus>)
  {
    h == [] ||
    (3 <= |h| <= 5 && h[..|h| - 1] == Phases[..|h| - 1] &&
     (h[|h| - 1] == Failed || (h[|h| - 1] == Done && |h| == 5)))
  }

  /** The status fields the updater thread writes on the application's navigator. */
  class UpdateMonitor {
    var updateStatus: UpdateStatus
    var statusHistory: seq<UpdateStatus>
    var actions: seq<Action>

    constructor ()
      ensures updateStatus == Nothing && statusHistory == [] && actions == []
    {
      updateStatus := Nothing;
      statusHistory := [];
      actions := [];
    }

    method SetStatus(s: UpdateStatus)
      modifies this
      ensures updateStatus == s && statusHistory == old(statusHistory) + [s] && actions == old(actions)
    {
      updateStatus := s;
      statusHistory := statusHistory + [s];
    }

    method Do(a: Action)
      modifies this
      ensures actions == old(actions) + [a]
      ensures updateStatus == old(updateStatus) && statusHistory == old(statusHistory)
    {
      actions := actions + [a];
    }

    /**
     * Lines 195-283, from INSTALLING on: move the installation aside (one
     * attempt per target), move the new files in, revert on failure, and
     * clean up.
     */
    method InstallPhase(env: Environment, rootPath: string)
      requires updateStatus == Installing && statusHistory == Phases
      requires MoveNew !in actions && CleanUpdateFiles !in actions
      modifies this
      ensures statusHistory == Phases + [updateStatus]
      ensures updateStatus == Done || updateStatus == Failed
      ensures updateStatus == Done <==> env.installExists && env.moveNew
      ensures updateStatus == Failed && MoveNew in actions ==>
        !env.moveNew && |actions| >= 3 && actions[|actions| - 3..] == [EmptyInstallDir, MoveBack(rootPath + OutdatedDirectory), CleanUpdateFiles]
      ensures updateStatus == Done ==> |actions| > 0 && actions[|actions| - 1] == CleanUpdateFiles
    {
      if !env.installExists {
        SetStatus(Failed);
        Do(CleanUpdateFiles);
        return;
      }
      var tried, _ := MoveInstallToOutdated(rootPath, env.moveOld);
      var i := 0;
      while i < |tried|
        invariant 0 <= i <= |tried|
        invariant updateStatus == Installing && statusHistory == Phases
        invariant MoveNew !in actions
      {
        Do(MoveOld(tried[i]));
        i := i + 1;
      }
      Do(MoveNew);
      if !env.moveNew {
        Do(EmptyInstallDir);
        // always from outdated/, whichever target the installation went to
        Do(MoveBack(rootPath + OutdatedDirectory));
        SetStatus(Failed);
        Do(CleanUpdateFiles);
        return;
      }
      if env.installDir != "latest" {
        Do(RenameLatest);
      }
      Do(CleanUpdateFiles);
      SetStatus(Done);
    }

    /** Lines 163-194: download and extract, then the install phase. */
    method UpdatePhase(env: Environment, rootPath: string)
      requires updateStatus == Nothing && statusHistory == []
      requires MoveNew !in actions && CleanUpdateFiles !in actions
      modifies this
      ensures WellOrdered(statusHistory) && statusHistory != []
      ensures updateStatus == statusHistory[|statusHistory| - 1]
      ensures updateStatus == Done <==>
        DownloadWithRetry(env.downloads, 0) && env.extracted && env.installExists && env.moveNew
      ensures updateStatus == Failed && MoveNew in actions ==>
        !env.moveNew && |actions| >= 3 && actions[|actions| - 3..] == [EmptyInstallDir, MoveBack(rootPath + OutdatedDirectory), CleanUpdateFiles]
      ensures updateStatus == Done ==> |actions| > 0 && actions[|actions| - 1] == CleanUpdateFiles
    {
      SetStatus(Initializing);
      SetStatus(Downloading);
      Do(DownloadPackage);
      if !DownloadWithRetry(env.downloads, 0) {
        SetStatus(Failed);
        assert statusHistory[..2] == Phases[..2];
        return;
      }
      SetStatus(Extracting);
      Do(ExtractPackage);
      if !env.extracted {
        SetStatus(Failed);
        Do(CleanUpdateFiles);
        assert statusHistory[..3] == Phases[..3];
        return;
      }
      SetStatus(Installing);
      assert statusHistory == Phases;
      InstallPhase(env, rootPath);
      assert statusHistory[..4] == Phases[..4];
    }

    /**
     * `RunUpdater` (lines 108-283) from a fresh monitor, with the corrected
     * download retry. No update work happens for an executable inside
     * `outdated/`, without the lock, without a tag, or when up to date.
     */
    method RunUpdater(env: Environment, rootPath: string)
      requires statusHistory == [] && actions == [] && updateStatus == Nothing
      modifies this
      ensures WellOrdered(statusHistory)
      ensures statusHistory == [] ==> updateStatus == Nothing
      ensures statusHistory != [] ==> updateStatus == statusHistory[|statusHistory| - 1]
      ensures env.installDir == "outdated" || !env.lockTaken ==> actions == [] && statusHistory == []
      ensures LatestRelease(env.answers, 0).tag == "" || LatestRelease(env.answers, 0).tag == env.version ==>
        statusHistory == [] && DownloadPackage !in actions
      ensures updateStatus == Done <==>
        env.installDir != "outdated" && env.lockTaken &&
        LatestRelease(env.answers, 0).tag != "" && LatestRelease(env.answers, 0).tag != env.version &&
        DownloadWithRetry(env.downloads, 0) && env.extracted && env.installExists && env.moveNew
      ensures updateStatus == Failed && MoveNew in actions ==>
        !env.moveNew && |actions| >= 3 && actions[|actions| - 3..] == [EmptyInstallDir, MoveBack(rootPath + OutdatedDirectory), CleanUpdateFiles]
      ensures updateStatus == Done ==> |actions| > 0 && actions[|actions| - 1] == CleanUpdateFiles
    {
      if env.installDir == "outdated" {
        return;
      }
      if !env.lockTaken {
        return;
      }
      Do(DeleteOutdated);
      var release := LatestRelease(env.answers, 0);
      Do(FetchRelease(release.requests));
      if release.tag == "" || env.version == release.tag {
        assert actions == [DeleteOutdated, FetchRelease(release.requests)];
        return;
      }
      assert actions == [DeleteOutdated, FetchRelease(release.requests)];
      UpdatePhase(env, rootPath);
    }
  }
}
