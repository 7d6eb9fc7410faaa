/** What the installer's pipeline guarantees: where it stops, which collaborators it calls with
    which arguments, and exactly which console lines it writes. Most lemmas are stated over
    `Execute` for every combination of collaborator answers their preconditions allow; a few are
    helper facts about line formats and fixed trace prefixes, and one is a concrete scenario. */
module InstallationProperties {
  import opened PhpStrings
  import opened Installation

  /** The calls every run past the platform check makes before deciding whether to install. */
  function ResolutionCalls(binDir: string): seq<Action> {
    [ShouldAllow, ResolvePlatformSupport, ResolveRequiredDriverVersion, ResolveInstalledDriverVersion(binDir)]
  }

  /** The run asked the download manager for a release. */
  predicate Downloads(r: Run) {
    exists a :: a in Calls(r.events) && a.DownloadRelease?
  }

  /** The run asked the package manager to install binaries. */
  predicate Installs(r: Run) {
    exists a :: a in Calls(r.events) && a.InstallBinaries?
  }

  lemma CallsSnoc(events: seq<Event>, e: Event)
    ensures Calls(events + [e]) == Calls(events) + (if e.Call? then [e.action] else [])
  {
  }

  /** Only the failure reports are error lines, and none of the other lines is the completion line. */
  lemma LineKinds(driverName: string, version: string, message: string)
    ensures IsErrorLine(ErrorLine(message))
    ensures !IsErrorLine(PlatformNotSupportedLine(driverName))
    ensures !IsErrorLine(AlreadyInstalledLine(version))
    ensures !IsErrorLine(InstallingLine(driverName, version))
    ensures !IsErrorLine("") && !IsErrorLine(DoneLine)
    ensures DoneLine != ErrorLine(message) && DoneLine != InstallingLine(driverName, version)
    ensures DoneLine != PlatformNotSupportedLine(driverName) && DoneLine != AlreadyInstalledLine(version)
    ensures InstallingLine(driverName, version) != PlatformNotSupportedLine(driverName)
    ensures InstallingLine(driverName, version) != AlreadyInstalledLine(version)
  {
    assert ErrorLine(message)[..7] == "<error>";
    assert PlatformNotSupportedLine(driverName)[0] == 'S';
    assert AlreadyInstalledLine(version)[0] == 'R';
    assert InstallingLine(driverName, version)[1] == 'i';
    assert InstallingLine(driverName, version)[6] == 'I';
    assert ErrorLine(message)[1] == 'e';
  }

  /** Lines 45-47: a denied gate ends the run before anything else is called or written. */
  lemma GateDeniedDoesNothing(driverName: string, binDir: string, verbose: bool, c: Collaborators)
    requires !c.shouldAllow
    ensures var r := Execute(driverName, binDir, verbose, c);
      r.exit == GateDenied && Calls(r.events) == [ShouldAllow] && Lines(r.events) == []
      && !Downloads(r) && !Installs(r)
  {
  }

  /** Lines 65-73: an unsupported platform ends the run after the platform check; the notice
      is written exactly when the console is verbose. */
  lemma UnsupportedPlatformSkips(driverName: string, binDir: string, verbose: bool, c: Collaborators)
    requires c.shouldAllow && !c.platformSupported
    ensures var r := Execute(driverName, binDir, verbose, c);
      && r.exit == PlatformUnsupported
      && Calls(r.events) == [ShouldAllow, ResolvePlatformSupport]
      && Lines(r.events) == (if verbose then [PlatformNotSupportedLine(driverName)] else [])
      && (PlatformNotSupportedLine(driverName) in Lines(r.events) <==> verbose)
      && !Downloads(r) && !Installs(r)
  {
    var platform := [Call(ShouldAllow)] + [Call(ResolvePlatformSupport)];
    CallsSnoc([Call(ShouldAllow)], Call(ResolvePlatformSupport));
    LinesSnoc([Call(ShouldAllow)], Call(ResolvePlatformSupport));
    CallsSnoc([], Call(ShouldAllow));
    LinesSnoc([], Call(ShouldAllow));
    CallsSnoc(platform, Write(PlatformNotSupportedLine(driverName)));
    LinesSnoc(platform, Write(PlatformNotSupportedLine(driverName)));
  }

  /** The trace of a run that reaches the version check, up to the decision. */
  function ResolvedTrace(binDir: string): seq<Event> {
    [Call(ShouldAllow)] + [Call(ResolvePlatformSupport)]
    + [Call(ResolveRequiredDriverVersion)] + [Call(ResolveInstalledDriverVersion(binDir))]
  }

  lemma ResolvedTraceContents(binDir: string)
    ensures Calls(ResolvedTrace(binDir)) == ResolutionCalls(binDir) && Lines(ResolvedTrace(binDir)) == []
  {
    var e0 := [Call(ShouldAllow)];
    var e1 := e0 + [Call(ResolvePlatformSupport)];
    var e2 := e1 + [Call(ResolveRequiredDriverVersion)];
    CallsSnoc([], Call(ShouldAllow));
    LinesSnoc([], Call(ShouldAllow));
    CallsSnoc(e0, Call(ResolvePlatformSupport));
    LinesSnoc(e0, Call(ResolvePlatformSupport));
    CallsSnoc(e1, Call(ResolveRequiredDriverVersion));
    LinesSnoc(e1, Call(ResolveRequiredDriverVersion));
    CallsSnoc(e2, Call(ResolveInstalledDriverVersion(binDir)));
    LinesSnoc(e2, Call(ResolveInstalledDriverVersion(binDir)));
  }

  /** Lines 45-77: a run that gets past the gate and the platform check begins with the gate,
      the platform check and both version resolutions, and has written nothing before the
      version decision, whatever the verbosity and whatever happens afterwards. */
  lemma ResolutionPrefix(driverName: string, binDir: string, verbose: bool, c: Collaborators)
    requires c.shouldAllow && c.platformSupported
    ensures var r := Execute(driverName, binDir, verbose, c);
      && |r.events| >= 4
      && r.events[..4] == ResolvedTrace(binDir)
      && Calls(r.events[..4]) == ResolutionCalls(binDir)
      && Lines(r.events[..4]) == []
  {
    ResolvedTraceContents(binDir);
  }

  /** Lines 79-87: past the platform check, the install is skipped exactly when the installed
      version starts with the required one; a skipped run downloads and installs nothing, and
      says so only on a verbose console. */
  lemma SkipExactlyWhenPrefix(driverName: string, binDir: string, verbose: bool, c: Collaborators)
    requires c.shouldAllow && c.platformSupported
    ensures var r := Execute(driverName, binDir, verbose, c);
      r.exit == AlreadyInstalled <==> StartsWith(c.installedVersion, c.requiredVersion)
    ensures var r := Execute(driverName, binDir, verbose, c);
      StartsWith(c.installedVersion, c.requiredVersion) ==>
        && Calls(r.events) == ResolutionCalls(binDir)
        && Lines(r.events) == (if verbose then [AlreadyInstalledLine(c.requiredVersion)] else [])
        && !Downloads(r) && !Installs(r)
  {
    var resolved := ResolvedTrace(binDir);
    ResolvedTraceContents(binDir);
    CallsSnoc(resolved, Write(AlreadyInstalledLine(c.requiredVersion)));
    LinesSnoc(resolved, Write(AlreadyInstalledLine(c.requiredVersion)));
  }

  /** With PHP 8's `strpos`, an empty required version is found at 0 in any installed version:
      such a run always counts as already installed and never downloads. */
  lemma EmptyRequiredVersionSkips(driverName: string, binDir: string, verbose: bool, c: Collaborators)
    requires c.shouldAllow && c.platformSupported && c.requiredVersion == ""
    ensures var r := Execute(driverName, binDir, verbose, c);
      r.exit == AlreadyInstalled && !Downloads(r) && !Installs(r)
  {
    EmptyPrefixAlwaysMatches(c.installedVersion);
    SkipExactlyWhenPrefix(driverName, binDir, verbose, c);
  }

  /** Line 79: a run whose binary reports exactly the required version downloads and installs
      nothing. The first run only sets the scene: it is the completed install that downloaded and
      installed the binary the second run finds. */
  lemma SecondRunInstallsNothing(driverName: string, binDir: string, verbose: bool,
                                 first: Collaborators, second: Collaborators, verbose': bool)
    requires Execute(driverName, binDir, verbose, first).exit == Completed
    requires second.requiredVersion == first.requiredVersion
    requires second.installedVersion == first.requiredVersion
    ensures var r := Execute(driverName, binDir, verbose, first);
      Downloads(r) && Installs(r)
    ensures var r := Execute(driverName, binDir, verbose', second);
      !Downloads(r) && !Installs(r) && r.exit != Completed
  {
    InstallSuccessReported(driverName, binDir, verbose, first);
    if !second.shouldAllow {
      GateDeniedDoesNothing(driverName, binDir, verbose', second);
    } else if !second.platformSupported {
      UnsupportedPlatformSkips(driverName, binDir, verbose', second);
    } else {
      StartsWithReflexive(second.requiredVersion);
      SkipExactlyWhenPrefix(driverName, binDir, verbose', second);
    }
  }

  /** The trace of a run that gets past the version check, up to its download request. */
  function DownloadingPrefix(driverName: string, binDir: string, version: string): seq<Event> {
    ResolvedTrace(binDir)
    + [Write(InstallingLine(driverName, version))]
    + [Call(DownloadRelease([version], MaxDownloadAttempts))]
  }

  lemma DownloadingPrefixContents(driverName: string, binDir: string, version: string)
    ensures Calls(DownloadingPrefix(driverName, binDir, version))
            == ResolutionCalls(binDir) + [DownloadRelease([version], MaxDownloadAttempts)]
    ensures Lines(DownloadingPrefix(driverName, binDir, version)) == [InstallingLine(driverName, version)]
  {
    var resolved := ResolvedTrace(binDir);
    var announced := resolved + [Write(InstallingLine(driverName, version))];
    ResolvedTraceContents(binDir);
    CallsSnoc(resolved, Write(InstallingLine(driverName, version)));
    LinesSnoc(resolved, Write(InstallingLine(driverName, version)));
    CallsSnoc(announced, Call(DownloadRelease([version], MaxDownloadAttempts)));
    LinesSnoc(announced, Call(DownloadRelease([version], MaxDownloadAttempts)));
  }

  /** Lines 89-102: a run that gets past the version check announces the installation,
      whatever the verbosity, and then requests the download of exactly the required version
      with a budget of five attempts. */
  lemma AnnouncementPrecedesDownload(driverName: string, binDir: string, verbose: bool, c: Collaborators)
    requires ProceedsToInstall(c)
    ensures var r := Execute(driverName, binDir, verbose, c);
      && |r.events| > 6
      && r.events[..6] == DownloadingPrefix(driverName, binDir, c.requiredVersion)
      && r.events[4] == Write(InstallingLine(driverName, c.requiredVersion))
      && r.events[5] == Call(DownloadRelease([c.requiredVersion], 5))
      && (forall i :: 0 <= i < 4 ==> r.events[i].Call?)
  {
  }

  /** Lines 101-109: a failed download is reported as exactly one error line after the
      announcement; nothing is installed and "Done" is not written. */
  lemma DownloadFailureReported(driverName: string, binDir: string, verbose: bool, c: Collaborators)
    requires ProceedsToInstall(c) && c.download.DownloadFailed?
    ensures var r := Execute(driverName, binDir, verbose, c);
      && r.exit == DownloadError
      && Calls(r.events) == ResolutionCalls(binDir) + [DownloadRelease([c.requiredVersion], MaxDownloadAttempts)]
      && Lines(r.events) == [InstallingLine(driverName, c.requiredVersion), ErrorLine(c.download.message)]
      && Downloads(r) && !Installs(r) && DoneLine !in Lines(r.events)
  {
    var r := Execute(driverName, binDir, verbose, c);
    var downloading := DownloadingPrefix(driverName, binDir, c.requiredVersion);
    DownloadingPrefixContents(driverName, binDir, c.requiredVersion);
    CallsSnoc(downloading, Write(ErrorLine(c.download.message)));
    LinesSnoc(downloading, Write(ErrorLine(c.download.message)));
    LineKinds(driverName, c.requiredVersion, c.download.message);
    assert Calls(r.events)[4].DownloadRelease?;
  }

  /** Lines 111-115: a downloaded package is installed into the binary directory; when that
      succeeds the run writes an empty line and then "Done". */
  lemma InstallSuccessReported(driverName: string, binDir: string, verbose: bool, c: Collaborators)
    requires ProceedsToInstall(c) && c.download.Downloaded? && c.install.Installed?
    ensures var r := Execute(driverName, binDir, verbose, c);
      && r.exit == Completed
      && Calls(r.events) == ResolutionCalls(binDir) + [DownloadRelease([c.requiredVersion], MaxDownloadAttempts),
                                                        InstallBinaries(c.download.package, binDir)]
      && Lines(r.events) == [InstallingLine(driverName, c.requiredVersion), "", DoneLine]
      && Downloads(r) && Installs(r)
  {
    var r := Execute(driverName, binDir, verbose, c);
    var downloading := DownloadingPrefix(driverName, binDir, c.requiredVersion);
    var installing := downloading + [Call(InstallBinaries(c.download.package, binDir))];
    DownloadingPrefixContents(driverName, binDir, c.requiredVersion);
    CallsSnoc(downloading, Call(InstallBinaries(c.download.package, binDir)));
    LinesSnoc(downloading, Call(InstallBinaries(c.download.package, binDir)));
    CallsSnoc(installing, Write(""));
    LinesSnoc(installing, Write(""));
    CallsSnoc(installing + [Write("")], Write(DoneLine));
    LinesSnoc(installing + [Write("")], Write(DoneLine));
    assert Calls(r.events)[4].DownloadRelease? && Calls(r.events)[5].InstallBinaries?;
  }

  /** Lines 111-120: when installing the downloaded package fails, the failure is reported as
      exactly one error line after the announcement and "Done" is not written. */
  lemma InstallFailureReported(driverName: string, binDir: string, verbose: bool, c: Collaborators)
    requires ProceedsToInstall(c) && c.download.Downloaded? && c.install.InstallFailed?
    ensures var r := Execute(driverName, binDir, verbose, c);
      && r.exit == InstallError
      && Calls(r.events) == ResolutionCalls(binDir) + [DownloadRelease([c.requiredVersion], MaxDownloadAttempts),
                                                        InstallBinaries(c.download.package, binDir)]
      && Lines(r.events) == [InstallingLine(driverName, c.requiredVersion), ErrorLine(c.install.message)]
      && Downloads(r) && Installs(r) && DoneLine !in Lines(r.events)
  {
    var r := Execute(driverName, binDir, verbose, c);
    var downloading := DownloadingPrefix(driverName, binDir, c.requiredVersion);
    var installing := downloading + [Call(InstallBinaries(c.download.package, binDir))];
    DownloadingPrefixContents(driverName, binDir, c.requiredVersion);
    CallsSnoc(downloading, Call(InstallBinaries(c.download.package, binDir)));
    LinesSnoc(downloading, Call(InstallBinaries(c.download.package, binDir)));
    CallsSnoc(installing, Write(ErrorLine(c.install.message)));
    LinesSnoc(installing, Write(ErrorLine(c.install.message)));
    LineKinds(driverName, c.requiredVersion, c.install.message);
    assert Calls(r.events)[4].DownloadRelease? && Calls(r.events)[5].InstallBinaries?;
  }

  /** Lines 79-91: the installation is announced if and only if the run gets past the version check. */
  lemma AnnouncedExactlyWhenProceeding(driverName: string, binDir: string, verbose: bool, c: Collaborators)
    ensures InstallingLine(driverName, c.requiredVersion) in Lines(Execute(driverName, binDir, verbose, c).events)
            <==> ProceedsToInstall(c)
  {
    LineKinds(driverName, c.requiredVersion, "");
    if !c.shouldAllow {
      GateDeniedDoesNothing(driverName, binDir, verbose, c);
    } else if !c.platformSupported {
      UnsupportedPlatformSkips(driverName, binDir, verbose, c);
    } else if StartsWith(c.installedVersion, c.requiredVersion) {
      SkipExactlyWhenPrefix(driverName, binDir, verbose, c);
    } else if c.download.DownloadFailed? {
      DownloadFailureReported(driverName, binDir, verbose, c);
    } else if c.install.Installed? {
      InstallSuccessReported(driverName, binDir, verbose, c);
    } else {
      InstallFailureReported(driverName, binDir, verbose, c);
    }
  }

  /** Lines 79-112: a download is requested if and only if the run gets past the version check,
      and an install if and only if it also downloaded a package. */
  lemma DownloadsExactlyWhenProceeding(driverName: string, binDir: string, verbose: bool, c: Collaborators)
    ensures var r := Execute(driverName, binDir, verbose, c);
      (Downloads(r) <==> ProceedsToInstall(c)) && (Installs(r) <==> ProceedsToInstall(c) && c.download.Downloaded?)
  {
    if !c.shouldAllow {
      GateDeniedDoesNothing(driverName, binDir, verbose, c);
    } else if !c.platformSupported {
      UnsupportedPlatformSkips(driverName, binDir, verbose, c);
    } else if StartsWith(c.installedVersion, c.requiredVersion) {
      SkipExactlyWhenPrefix(driverName, binDir, verbose, c);
    } else if c.download.DownloadFailed? {
      DownloadFailureReported(driverName, binDir, verbose, c);
    } else if c.install.Installed? {
      InstallSuccessReported(driverName, binDir, verbose, c);
    } else {
      InstallFailureReported(driverName, binDir, verbose, c);
    }
  }

  /** Lines 101-120: whatever the collaborators do, the run ends normally; a failed download or
      install becomes exactly one error line, the last of two lines written, and no other line
      is an error line. */
  lemma FailuresBecomeOneErrorLine(driverName: string, binDir: string, verbose: bool, c: Collaborators)
    ensures var r := Execute(driverName, binDir, verbose, c);
      var lines := Lines(r.events);
      if r.exit == DownloadError || r.exit == InstallError
      then |lines| == 2 && !IsErrorLine(lines[0]) && IsErrorLine(lines[1])
      else forall l :: l in lines ==> !IsErrorLine(l)
  {
    if !c.shouldAllow {
      GateDeniedDoesNothing(driverName, binDir, verbose, c);
    } else if !c.platformSupported {
      LineKinds(driverName, c.requiredVersion, "");
      UnsupportedPlatformSkips(driverName, binDir, verbose, c);
    } else if StartsWith(c.installedVersion, c.requiredVersion) {
      LineKinds(driverName, c.requiredVersion, "");
      SkipExactlyWhenPrefix(driverName, binDir, verbose, c);
    } else if c.download.DownloadFailed? {
      LineKinds(driverName, c.requiredVersion, c.download.message);
      DownloadFailureReported(driverName, binDir, verbose, c);
    } else if c.install.Installed? {
      LineKinds(driverName, c.requiredVersion, "");
      InstallSuccessReported(driverName, binDir, verbose, c);
    } else {
      LineKinds(driverName, c.requiredVersion, c.install.message);
      InstallFailureReported(driverName, binDir, verbose, c);
    }
  }

  /** Lines 111-120: "Done" is written if and only if the install succeeded. */
  lemma DoneExactlyWhenInstalled(driverName: string, binDir: string, verbose: bool, c: Collaborators)
    ensures var r := Execute(driverName, binDir, verbose, c);
      DoneLine in Lines(r.events) <==> r.exit == Completed
  {
    LineKinds(driverName, c.requiredVersion, "");
    if !c.shouldAllow {
      GateDeniedDoesNothing(driverName, binDir, verbose, c);
    } else if !c.platformSupported {
      UnsupportedPlatformSkips(driverName, binDir, verbose, c);
    } else if StartsWith(c.installedVersion, c.requiredVersion) {
      SkipExactlyWhenPrefix(driverName, binDir, verbose, c);
    } else if c.download.DownloadFailed? {
      DownloadFailureReported(driverName, binDir, verbose, c);
    } else if c.install.Installed? {
      InstallSuccessReported(driverName, binDir, verbose, c);
    } else {
      InstallFailureReported(driverName, binDir, verbose, c);
    }
  }

  /** Lines 66 and 80: the console's verbosity changes nothing but the two skip notices; a quiet
      run that stops at the platform or version check writes nothing, a verbose one writes one line. */
  lemma VerbosityOnlyGatesSkipNotices(driverName: string, binDir: string, c: Collaborators)
    ensures var loud := Execute(driverName, binDir, true, c);
      var quiet := Execute(driverName, binDir, false, c);
      && loud.exit == quiet.exit
      && Calls(loud.events) == Calls(quiet.events)
      && if loud.exit == PlatformUnsupported || loud.exit == AlreadyInstalled
         then Lines(quiet.events) == [] && |Lines(loud.events)| == 1
         else Lines(quiet.events) == Lines(loud.events)
  {
    if !c.shouldAllow {
      GateDeniedDoesNothing(driverName, binDir, true, c);
      GateDeniedDoesNothing(driverName, binDir, false, c);
    } else if !c.platformSupported {
      UnsupportedPlatformSkips(driverName, binDir, true, c);
      UnsupportedPlatformSkips(driverName, binDir, false, c);
    } else if StartsWith(c.installedVersion, c.requiredVersion) {
      SkipExactlyWhenPrefix(driverName, binDir, true, c);
      SkipExactlyWhenPrefix(driverName, binDir, false, c);
    } else if c.download.DownloadFailed? {
      DownloadFailureReported(driverName, binDir, true, c);
      DownloadFailureReported(driverName, binDir, false, c);
    } else if c.install.Installed? {
      InstallSuccessReported(driverName, binDir, true, c);
      InstallSuccessReported(driverName, binDir, false, c);
    } else {
      InstallFailureReported(driverName, binDir, true, c);
      InstallFailureReported(driverName, binDir, false, c);
    }
  }

  /** A fresh install: required version "98.0", no binary yet (the analyser reports an empty
      version), download and install both succeed. */
  lemma FreshInstallScenario(package: Package)
    ensures var c := Collaborators(true, true, "98.0", "", Downloaded(package), Installed);
      var r := Execute("chromedriver", "vendor/bin", false, c);
      && r.exit == Completed
      && Calls(r.events) == ResolutionCalls("vendor/bin")
                            + [DownloadRelease(["98.0"], 5), InstallBinaries(package, "vendor/bin")]
      && Lines(r.events) == [InstallingLine("chromedriver", "98.0"), "", DoneLine]
  {
    var c := Collaborators(true, true, "98.0", "", Downloaded(package), Installed);
    assert !StartsWith("", "98.0");
    InstallSuccessReported("chromedriver", "vendor/bin", false, c);
  }
}
