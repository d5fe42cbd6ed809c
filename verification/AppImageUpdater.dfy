/**
 * The AppImage updater of electron-updater (packages/electron-updater/src/AppImageUpdater.ts):
 * when the updater is active, how the update file is obtained, and where the downloaded
 * AppImage is installed and with which environment it is started. Environment variables,
 * the platform, the outcome of the differential downloader and the answer of the base
 * updater are parameters; file-system and process effects are returned as values.
 */
module AppImageUpdater {
  import opened Support
  import Paths

  const OLD_FILE_NOT_FOUND := "ERR_UPDATER_OLD_FILE_NOT_FOUND"
  const APPIMAGE_NOT_DEFINED := "APPIMAGE env is not defined"
  const NO_UPDATE_FILE := "No update filepath provided, can't quit and install"
  const SILENT_INSTALL := "APPIMAGE_SILENT_INSTALL"
  const EXIT_AFTER_INSTALL := "APPIMAGE_EXIT_AFTER_INSTALL"

  /** The error thrown when the running program is not an AppImage. */
  const OLD_FILE_ERROR := CodedError(APPIMAGE_NOT_DEFINED, OLD_FILE_NOT_FOUND)

  // ---------------------------------------------------------------------------
  // isUpdaterActive

  datatype LogEntry = Warn(message: string) | Info(message: string)

  /** The answer of isUpdaterActive and what it logged. */
  datatype ActiveCheck = ActiveCheck(active: bool, logged: Option<LogEntry>)

  /**
   * isUpdaterActive: without APPIMAGE (and without forceDevUpdateConfig) the updater is off,
   * with a warning, or a note when SNAP is set; otherwise the base updater decides
   * (`baseActive`).
   */
  function IsUpdaterActive(appImage: Option<string>, forceDevUpdateConfig: bool, snap: Option<string>, baseActive: bool): (r: ActiveCheck)
    ensures r.active <==> (appImage.Some? || forceDevUpdateConfig) && baseActive
    ensures appImage.None? && !forceDevUpdateConfig ==> !r.active && r.logged.Some?
    ensures r.logged.Some? ==> appImage.None? && !forceDevUpdateConfig
    ensures r.logged.Some? ==> (r.logged.value.Info? <==> snap.Some?)
  {
    if appImage.None? && !forceDevUpdateConfig then
      if snap.None? then ActiveCheck(false, Some(Warn("APPIMAGE env is not defined, current application is not an AppImage")))
      else ActiveCheck(false, Some(Info("SNAP env is defined, updater is disabled")))
    else
      ActiveCheck(baseActive, None)
  }

  // ---------------------------------------------------------------------------
  // doDownloadUpdate and downloadDifferential

  /** How the differential downloader's `download()` ended. */
  datatype DifferentialOutcome = Completed | Threw

  /** The effects of the download task, in order. */
  datatype DownloadStep =
    | DifferentialAttempt(oldFile: string, newFile: string, isUseMultipleRangeRequest: bool)
    | FullDownload(url: string, newFile: string)
    | Chmod(file: string, mode: nat)

  /**
   * downloadDifferential: whether a full download is still needed. A completed differential
   * download needs none; a failed one falls back to the full download only on Linux.
   */
  function DownloadDifferential(outcome: DifferentialOutcome, isLinux: bool): (fullNeeded: bool)
    ensures outcome == Completed ==> !fullNeeded
    ensures outcome == Threw ==> fullNeeded == isLinux
  {
    match outcome
    case Completed => false
    case Threw => isLinux
  }

  /**
   * The task doDownloadUpdate hands to executeDownload: it needs the running AppImage
   * (APPIMAGE), skips the differential attempt when differential download is disabled,
   * downloads the whole file when disabled or when the attempt asked for it, and then
   * makes the file executable (mode 0o755).
   */
  method DownloadTask(appImage: Option<string>, disableDifferentialDownload: bool, outcome: DifferentialOutcome, isLinux: bool,
                      url: string, updateFile: string, isUseMultipleRangeRequest: bool)
    returns (r: Result<seq<DownloadStep>, CodedError>)
    ensures appImage.None? <==> r.Failure?
    ensures appImage.None? ==> r.error == OLD_FILE_ERROR
    ensures r.Success? ==> |r.value| >= 1 && r.value[|r.value| - 1] == Chmod(updateFile, 0x1ED)
    ensures r.Success? ==>
              (DifferentialAttempt(appImage.value, updateFile, isUseMultipleRangeRequest) in r.value <==> !disableDifferentialDownload)
    ensures r.Success? ==>
              (FullDownload(url, updateFile) in r.value <==> disableDifferentialDownload || (outcome == Threw && isLinux))
    ensures r.Success? && !disableDifferentialDownload && outcome == Completed ==> FullDownload(url, updateFile) !in r.value
    ensures r.Success? ==>
              r.value == (if disableDifferentialDownload then [] else [DifferentialAttempt(appImage.value, updateFile, isUseMultipleRangeRequest)])
                         + (if disableDifferentialDownload || DownloadDifferential(outcome, isLinux) then [FullDownload(url, updateFile)] else [])
                         + [Chmod(updateFile, 0x1ED)]
  {
    if appImage.None? {
      return Failure(OLD_FILE_ERROR);
    }
    var oldFile := appImage.value;
    var steps: seq<DownloadStep> := [];
    var full := disableDifferentialDownload;
    if !full {
      steps := steps + [DifferentialAttempt(oldFile, updateFile, isUseMultipleRangeRequest)];
      full := DownloadDifferential(outcome, isLinux);
    }
    if full {
      steps := steps + [FullDownload(url, updateFile)];
    }
    steps := steps + [Chmod(updateFile, 0x1ED)];
    return Success(steps);
  }

  // ---------------------------------------------------------------------------
  // doInstall

  predicate IsDigit(c: char) {
    '0' <= c <= '9'
  }

  /** `\d+\.\d+\.\d+` matches with its two dots at `a` and `b`. */
  predicate VersionAt(s: string, a: nat, b: nat) {
    0 < a && a + 1 < b && b + 1 < |s| && s[a] == '.' && s[b] == '.' &&
    IsDigit(s[a - 1]) && IsDigit(s[b + 1]) && forall k :: a < k < b ==> IsDigit(s[k])
  }

  /** `/\d+\.\d+\.\d+/.test(s)`: some digits, a dot, digits, a dot, digits, anywhere in `s`. */
  predicate HasVersion(s: string) {
    exists a: nat, b: nat | a < b < |s| :: VersionAt(s, a, b)
  }

  /** A versioned AppImage name is recognised, a plain one is not. */
  lemma HasVersionExamples()
    ensures HasVersion("MyApp-1.2.3.AppImage")
    ensures !HasVersion("MyApp.AppImage")
  {
    assert VersionAt("MyApp-1.2.3.AppImage", 7, 9);
  }

  predicate AllDigits(d: string) {
    forall k :: 0 <= k < |d| ==> IsDigit(d[k])
  }

  /** Any text around three non-empty digit runs joined by dots holds a version. */
  lemma HasVersionOfDottedDigits(before: string, d1: string, d2: string, d3: string, after: string)
    requires d1 != [] && d2 != [] && d3 != []
    requires AllDigits(d1) && AllDigits(d2) && AllDigits(d3)
    ensures HasVersion(before + d1 + "." + d2 + "." + d3 + after)
  {
    var s := before + d1 + "." + d2 + "." + d3 + after;
    var a := |before| + |d1|;
    var b := a + 1 + |d2|;
    assert s == (before + d1) + ("." + d2 + "." + d3 + after);
    assert s[a - 1] == d1[|d1| - 1];
    assert s[a] == '.';
    forall k | a < k < b ensures IsDigit(s[k]) {
      assert s[k] == d2[k - a - 1];
    }
    assert s[b] == '.';
    assert s[b + 1] == d3[0];
    assert VersionAt(s, a, b);
  }

  /** Finding a version is not disturbed by text added on either side. */
  lemma HasVersionAnywhere(before: string, s: string, after: string)
    requires HasVersion(s)
    ensures HasVersion(before + s + after)
  {
    var a: nat, b: nat :| a < b < |s| && VersionAt(s, a, b);
    var t := before + s + after;
    forall k | 0 <= k < |s| ensures t[|before| + k] == s[k] { }
    assert VersionAt(t, |before| + a, |before| + b);
  }

  /** Number of dots in a string. */
  function DotCount(s: string): nat {
    if s == [] then 0 else DotCount(s[..|s| - 1]) + (if s[|s| - 1] == '.' then 1 else 0)
  }

  /** Two dots at different places make the dot count at least two. */
  lemma {:induction false} TwoDotsCounted(s: string, a: nat, b: nat)
    requires a < b < |s| && s[a] == '.' && s[b] == '.'
    ensures DotCount(s) >= 2
    decreases |s|
  {
    var init := s[..|s| - 1];
    if b < |s| - 1 {
      TwoDotsCounted(init, a, b);
    } else {
      OneDotCounted(init, a);
    }
  }

  lemma {:induction false} OneDotCounted(s: string, a: nat)
    requires a < |s| && s[a] == '.'
    ensures DotCount(s) >= 1
    decreases |s|
  {
    if a < |s| - 1 {
      OneDotCounted(s[..|s| - 1], a);
    }
  }

  /** A name with fewer than two dots never holds a version, so it is overwritten in place. */
  lemma FewDotsNoVersion(s: string)
    requires DotCount(s) < 2
    ensures !HasVersion(s)
  {
    if HasVersion(s) {
      var a: nat, b: nat :| a < b < |s| && VersionAt(s, a, b);
      TwoDotsCounted(s, a, b);
    }
  }

  /**
   * The install destination: the running AppImage itself when the new file has the same
   * name or the running one's name carries no version; otherwise a file in the same
   * directory named like the downloaded one.
   */
  function InstallDestination(appImageFile: string, installerPath: string): (destination: string)
    ensures Paths.Basename(installerPath) == Paths.Basename(appImageFile) || !HasVersion(Paths.Basename(appImageFile)) ==>
              destination == appImageFile
    ensures Paths.Basename(installerPath) != Paths.Basename(appImageFile) && HasVersion(Paths.Basename(appImageFile)) &&
            Paths.Basename(installerPath) != [] ==>
              destination != appImageFile && Paths.Basename(destination) == Paths.Basename(installerPath)
  {
    var existingBaseName := Paths.Basename(appImageFile);
    if Paths.Basename(installerPath) == existingBaseName || !HasVersion(existingBaseName) then
      appImageFile
    else
      var name := Paths.Basename(installerPath);
      var destination := Paths.JoinPath(Paths.Dirname(appImageFile), name);
      assert name != [] ==> Paths.Basename(destination) == name by {
        if name != [] {
          Paths.BasenameOfJoin(Paths.Dirname(appImageFile), name);
        }
      }
      destination
  }

  /** Whichever way it is chosen, the destination lies in the running AppImage's directory. */
  lemma InstallDestinationStaysInDirectory(appImageFile: string, installerPath: string)
    requires Paths.PlainPath(appImageFile)
    requires Paths.Basename(installerPath) != []
    ensures Paths.Dirname(InstallDestination(appImageFile, installerPath)) == Paths.Dirname(appImageFile)
    ensures Paths.Basename(InstallDestination(appImageFile, installerPath)) in
              {Paths.Basename(appImageFile), Paths.Basename(installerPath)}
  {
    var destination := InstallDestination(appImageFile, installerPath);
    if destination != appImageFile {
      Paths.JoinedStaysInDirectory(appImageFile, Paths.Basename(installerPath));
    }
  }

  /** How the installed AppImage is started. */
  datatype Launch = SpawnDetached | RunAndWait

  datatype InstallOutcome =
    /** The old file was removed, then the missing installer path was reported; doInstall returns false. */
    | NoInstallerPath(removed: string, dispatched: string)
    /** doInstall returns true after moving the new file into place and starting it. */
    | Installed(removed: string, moveArgs: seq<string>, destination: string, filenameUpdated: seq<string>,
                env: map<string, string>, launch: Launch)
  {
    function Succeeded(): bool {
      Installed?
    }
  }

  /** The environment the installed AppImage is started with. */
  function InstallEnvironment(processEnv: map<string, string>, isForceRunAfter: bool): (env: map<string, string>)
    ensures SILENT_INSTALL in env && env[SILENT_INSTALL] == "true"
    ensures !isForceRunAfter ==> EXIT_AFTER_INSTALL in env && env[EXIT_AFTER_INSTALL] == "true"
    ensures isForceRunAfter ==> (EXIT_AFTER_INSTALL in env <==> EXIT_AFTER_INSTALL in processEnv)
    ensures forall k :: k in processEnv && k != SILENT_INSTALL && (isForceRunAfter || k != EXIT_AFTER_INSTALL) ==> k in env && env[k] == processEnv[k]
    ensures env.Keys == processEnv.Keys + {SILENT_INSTALL} + (if isForceRunAfter then {} else {EXIT_AFTER_INSTALL})
  {
    var env := processEnv[SILENT_INSTALL := "true"];
    if isForceRunAfter then env else env[EXIT_AFTER_INSTALL := "true"]
  }

  /**
   * doInstall: needs APPIMAGE; removes the running file first; reports a missing installer
   * path; otherwise moves the new file to the destination, announces a changed file name
   * with "appimage-filename-updated", and starts the new AppImage, detached when it is to
   * keep running, else waiting for it with APPIMAGE_EXIT_AFTER_INSTALL set.
   */
  method DoInstall(appImage: Option<string>, installerPath: Option<string>, isForceRunAfter: bool, processEnv: map<string, string>)
    returns (r: Result<InstallOutcome, CodedError>)
    ensures appImage.None? <==> r.Failure?
    ensures appImage.None? ==> r.error == OLD_FILE_ERROR
    ensures r.Success? ==> r.value.removed == appImage.value
    ensures r.Success? ==> (r.value.Succeeded() <==> installerPath.Some?)
    ensures r.Success? && installerPath.None? ==> r.value.dispatched == NO_UPDATE_FILE
    ensures r.Success? && installerPath.Some? ==>
              var destination := InstallDestination(appImage.value, installerPath.value);
              r.value.destination == destination &&
              r.value.moveArgs == ["-f", installerPath.value, destination] &&
              (r.value.filenameUpdated == if destination != appImage.value then [destination] else []) &&
              r.value.env == InstallEnvironment(processEnv, isForceRunAfter) &&
              r.value.launch == if isForceRunAfter then SpawnDetached else RunAndWait
  {
    if appImage.None? {
      return Failure(OLD_FILE_ERROR);
    }
    var appImageFile := appImage.value;
    var removed := appImageFile;

    if installerPath.None? {
      return Success(NoInstallerPath(removed, NO_UPDATE_FILE));
    }
    var installed := MoveAndLaunch(appImageFile, installerPath.value, isForceRunAfter, processEnv);
    return Success(installed);
  }

  /**
   * The part of doInstall after the old file is removed and an installer path is known:
   * `mv -f` to the destination, the rename event when the name changed, and the launch.
   */
  method MoveAndLaunch(appImageFile: string, installer: string, isForceRunAfter: bool, processEnv: map<string, string>)
    returns (installed: InstallOutcome)
    ensures installed.Installed? && installed.removed == appImageFile
    ensures var destination := InstallDestination(appImageFile, installer);
            installed.destination == destination &&
            installed.moveArgs == ["-f", installer, destination] &&
            (installed.filenameUpdated == if destination != appImageFile then [destination] else []) &&
            installed.env == InstallEnvironment(processEnv, isForceRunAfter) &&
            installed.launch == if isForceRunAfter then SpawnDetached else RunAndWait
  {
    var destination := InstallDestination(appImageFile, installer);

    var moveArgs := ["-f", installer, destination];
    var emitted: seq<string> := [];
    if destination != appImageFile {
      emitted := emitted + [destination];
    }

    var env := processEnv[SILENT_INSTALL := "true"];
    var launch: Launch;
    if isForceRunAfter {
      launch := SpawnDetached;
    } else {
      env := env[EXIT_AFTER_INSTALL := "true"];
      launch := RunAndWait;
    }
    return Installed(appImageFile, moveArgs, destination, emitted, env, launch);
  }
}
