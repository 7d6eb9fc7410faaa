/** The installer's decision pipeline (`Installer::executeWithConfig`): it decides whether the
    driver binary must be installed, asks the collaborators to download and install it, and
    reports on the console what happened. The collaborators' answers are inputs; the pipeline's
    effects are an ordered trace of collaborator calls and console writes. */
module Installation {
  import opened PhpStrings

  /** Retry budget handed to the release download. */
  const MaxDownloadAttempts: nat := 5

  /** A downloaded release package, opaque to the pipeline: it is only passed on to the installer. */
  datatype Package = Package(release: string)

  /** What `DownloadManager::downloadRelease` does: return a package or throw with a message. */
  datatype DownloadOutcome = Downloaded(package: Package) | DownloadFailed(message: string)

  /** What `PackageManager::installBinaries` does: return normally or throw with a message. */
  datatype InstallOutcome = Installed | InstallFailed(message: string)

  /** The answers of the collaborators the pipeline consults, in the order it consults them. */
  datatype Collaborators = Collaborators(
    shouldAllow: bool,          // DownloadStrategy::shouldAllow
    platformSupported: bool,    // ProjectAnalyser::resolvePlatformSupport
    requiredVersion: string,    // ProjectAnalyser::resolveRequiredDriverVersion
    installedVersion: string,   // ProjectAnalyser::resolveInstalledDriverVersion
    download: DownloadOutcome,  // DownloadManager::downloadRelease
    install: InstallOutcome)    // PackageManager::installBinaries

  /** A call the pipeline makes on a collaborator, with its arguments. */
  datatype Action =
    | ShouldAllow
    | ResolvePlatformSupport
    | ResolveRequiredDriverVersion
    | ResolveInstalledDriverVersion(binDir: string)
    | DownloadRelease(versions: seq<string>, attempts: nat)
    | InstallBinaries(package: Package, binDir: string)

  /** One observable effect: a collaborator call or a line written to the console. */
  datatype Event = Call(action: Action) | Write(line: string)

  /** Which of the pipeline's return points was taken. Every one of them is a normal return. */
  datatype Exit = GateDenied | PlatformUnsupported | AlreadyInstalled | DownloadError | InstallError | Completed

  datatype Run = Run(events: seq<Event>, exit: Exit)

  /** The composer settings the installer reads: only the binary directory is modelled. */
  datatype ComposerRuntime = ComposerRuntime(binDir: string)

  /** The plugin configuration: only the driver's name is read by the pipeline itself. */
  datatype PluginConfig = PluginConfig(driverName: string)

  // Console lines, as the pipeline formats them.

  function PlatformNotSupportedLine(driverName: string): string {
    "SKIPPING " + driverName + " setup: platform not supported"
  }

  function AlreadyInstalledLine(version: string): string {
    "Required version (v" + version + ") already installed"
  }

  function InstallingLine(driverName: string, version: string): string {
    "<info>Installing <comment>" + driverName + "</comment> (v" + version + ")</info>"
  }

  function ErrorLine(message: string): string {
    "<error>" + message + "</error>"
  }

  const DoneLine: string := "<info>Done</info>"

  /** A console line that reports a failure. */
  predicate IsErrorLine(line: string) {
    StartsWith(line, "<error>")
  }

  /** The collaborator calls of a trace, in order. */
  function Calls(events: seq<Event>): (calls: seq<Action>)
  {
    if events == [] then []
    else Calls(events[..|events| - 1]) + (if events[|events| - 1].Call? then [events[|events| - 1].action] else [])
  }

  /** The console lines of a trace, in order. */
  function Lines(events: seq<Event>): (lines: seq<string>)
  {
    if events == [] then []
    else Lines(events[..|events| - 1]) + (if events[|events| - 1].Write? then [events[|events| - 1].line] else [])
  }

  /** The pipeline gets past the gate, the platform check and the version check. */
  predicate ProceedsToInstall(c: Collaborators) {
    c.shouldAllow && c.platformSupported && !StartsWith(c.installedVersion, c.requiredVersion)
  }

  /** `Installer::executeWithConfig` as a function of the driver name, the binary directory,
      the console's verbosity and the collaborators' answers. */
  function Execute(driverName: string, binDir: string, verbose: bool, c: Collaborators): (r: Run)
    ensures r.exit == GateDenied <==> !c.shouldAllow
    ensures r.exit == PlatformUnsupported <==> c.shouldAllow && !c.platformSupported
    ensures r.exit == AlreadyInstalled <==>
              c.shouldAllow && c.platformSupported && StartsWith(c.installedVersion, c.requiredVersion)
    ensures r.exit == DownloadError <==> ProceedsToInstall(c) && c.download.DownloadFailed?
    ensures r.exit == InstallError <==>
              ProceedsToInstall(c) && c.download.Downloaded? && c.install.InstallFailed?
    ensures r.exit == Completed <==> ProceedsToInstall(c) && c.download.Downloaded? && c.install.Installed?
  {
    var gate := [Call(ShouldAllow)];
    if !c.shouldAllow then Run(gate, GateDenied)
    else
      var platform := gate + [Call(ResolvePlatformSupport)];
      if !c.platformSupported then
        Run(if verbose then platform + [Write(PlatformNotSupportedLine(driverName))] else platform, PlatformUnsupported)
      else
        var version := c.requiredVersion;
        var resolved := platform + [Call(ResolveRequiredDriverVersion)] + [Call(ResolveInstalledDriverVersion(binDir))];
        StrPosZeroIffStartsWith(c.installedVersion, version);
        if StrPos(c.installedVersion, version) == Some(0) then
          Run(if verbose then resolved + [Write(AlreadyInstalledLine(version))] else resolved, AlreadyInstalled)
        else
          var downloading := resolved + [Write(InstallingLine(driverName, version))]
                                      + [Call(DownloadRelease([version], MaxDownloadAttempts))];
          match c.download
          case DownloadFailed(message) => Run(downloading + [Write(ErrorLine(message))], DownloadError)
          case Downloaded(package) =>
            var installing := downloading + [Call(InstallBinaries(package, binDir))];
            match c.install
            case InstallFailed(message) => Run(installing + [Write(ErrorLine(message))], InstallError)
            case Installed => Run(installing + [Write("")] + [Write(DoneLine)], Completed)
  }

  /** The console the installer writes to (`IOInterface`): its verbosity and what has been written. */
  class ConsoleIO {
    const verbose: bool
    var lines: seq<string>

    constructor (verbose: bool)
      ensures this.verbose == verbose && lines == []
    {
      this.verbose := verbose;
      lines := [];
    }

    /** `IOInterface::write`: appends one line. */
    method Write(line: string)
      modifies this
      ensures lines == old(lines) + [line]
    {
      lines := lines + [line];
    }
  }

  lemma LinesSnoc(events: seq<Event>, e: Event)
    ensures Lines(events + [e]) == Lines(events) + (if e.Write? then [e.line] else [])
  {
  }

  class Installer {
    const composerRuntime: ComposerRuntime
    const cliIO: ConsoleIO

    constructor (composerRuntime: ComposerRuntime, cliIO: ConsoleIO)
      ensures this.composerRuntime == composerRuntime && this.cliIO == cliIO
    {
      this.composerRuntime := composerRuntime;
      this.cliIO := cliIO;
    }

    /** Runs the pipeline against the collaborators' answers: writes its lines to the console
        and returns the trace of what it did, which is the one `Execute` describes. */
    method ExecuteWithConfig(pluginConfig: PluginConfig, answers: Collaborators) returns (events: seq<Event>)
      modifies cliIO
      ensures events == Execute(pluginConfig.driverName, composerRuntime.binDir, cliIO.verbose, answers).events
      ensures cliIO.lines == old(cliIO.lines) + Lines(events)
    {
      ghost var before := cliIO.lines;
      events := [Call(ShouldAllow)];
      if !answers.shouldAllow {
        return;
      }
      var binaryDir := composerRuntime.binDir;
      var driverName := pluginConfig.driverName;
      LinesSnoc(events, Call(ResolvePlatformSupport));
      events := events + [Call(ResolvePlatformSupport)];
      if !answers.platformSupported {
        if cliIO.verbose {
          events := Say(before, events, PlatformNotSupportedLine(driverName));
        }
        return;
      }
      var version := answers.requiredVersion;
      LinesSnoc(events, Call(ResolveRequiredDriverVersion));
      events := events + [Call(ResolveRequiredDriverVersion)];
      var currentVersion := answers.installedVersion;
      LinesSnoc(events, Call(ResolveInstalledDriverVersion(binaryDir)));
      events := events + [Call(ResolveInstalledDriverVersion(binaryDir))];
      if StrPos(currentVersion, version) == Some(0) {
        if cliIO.verbose {
          events := Say(before, events, AlreadyInstalledLine(version));
        }
        return;
      }
      events := Say(before, events, InstallingLine(driverName, version));
      LinesSnoc(events, Call(DownloadRelease([version], MaxDownloadAttempts)));
      events := events + [Call(DownloadRelease([version], MaxDownloadAttempts))];
      match answers.download {
        case DownloadFailed(message) =>
          events := Say(before, events, ErrorLine(message));
          return;
        case Downloaded(package) =>
          LinesSnoc(events, Call(InstallBinaries(package, binaryDir)));
          events := events + [Call(InstallBinaries(package, binaryDir))];
          match answers.install {
            case Installed =>
              events := Say(before, events, "");
              events := Say(before, events, DoneLine);
            case InstallFailed(message) =>
              events := Say(before, events, ErrorLine(message));
          }
      }
    }

    /** Writes a line to the console and appends the write to the trace. */
    method Say(ghost before: seq<string>, events: seq<Event>, line: string) returns (events': seq<Event>)
      requires cliIO.lines == before + Lines(events)
      modifies cliIO
      ensures events' == events + [Write(line)]
      ensures cliIO.lines == old(cliIO.lines) + [line] == before + Lines(events')
    {
      cliIO.Write(line);
      events' := events + [Write(line)];
      LinesSnoc(events, Write(line));
      assert before + Lines(events) + [line] == before + (Lines(events) + [line]);
    }
  }
}
