# Driver installer pipeline — a Dafny model

This project models the decision pipeline of the WebDriver binary downloader's `Installer`, found in
`Installer::executeWithConfig`. The plugin runs as a Composer step. It makes sure a driver binary (for
example chromedriver) is present in the project's binary directory at the required version. The
pipeline checks these things in order:

1. whether the download strategy allows installing at all;
2. whether the platform is supported;
3. whether the installed version already satisfies the required one.

Then it announces the installation, downloads the release and installs it, and it reports each
outcome on the console.

The collaborators are `DownloadStrategy`, `ProjectAnalyser`, `DownloadManager` and
`PackageManager`. The pipeline builds each of them itself, and their code is not part of this model.
Their answers are therefore inputs, collected in `Installation.Collaborators`:

- the gate decision;
- platform support;
- the required version string;
- the installed version string;
- the download outcome: a package, or a failure with its message;
- the install outcome: success, or a failure with its message.

A run produces a `Run`. It holds the ordered trace of effects (`Event`: a collaborator call with its
arguments, or one console line written) and the `Exit` that names which return point ended the run.
`Calls` and `Lines` project the trace onto the collaborator calls and onto the console output.

Files:

- `php_strings.dfy` (module `PhpStrings`) holds the prefix relation `StartsWith`. It also models PHP 8
  `strpos` (`StrPos`, the first occurrence of a needle, where an empty needle is found at 0). The lemma
  `StrPosZeroIffStartsWith` connects the two: the source's test `strpos($current, $version) === 0`
  means exactly "the installed version starts with the required one".
- `installer.dfy` (module `Installation`) holds the data model, the console line formats and the pure
  pipeline function `Execute`. It also holds the classes `ConsoleIO` (the console that is written to)
  and `Installer`. The `Installer` constructor stores the Composer runtime and the console, as the
  source's constructor does. Its method `ExecuteWithConfig` runs the pipeline step by step, writing
  lines to the console, and is proved to produce exactly the trace that `Execute` describes.
- `installer_properties.dfy` (module `InstallationProperties`) holds the guarantees of the pipeline.
  Most of them are lemmas over `Execute` that hold for every combination of collaborator answers
  allowed by their preconditions. The exceptions are:
  - `LineKinds`, which is about the console line formats;
  - `DownloadingPrefixContents`, which is about the fixed trace prefix up to the download request;
  - `FreshInstallScenario`, which is about one fixed combination of answers.

## Model

| member | source | states |
|---|---|---|
| `PhpStrings.StrPos` | src/Installer.php:79 | `strpos` returns the index of an occurrence of the needle with no earlier occurrence, and returns `false` (`None`) exactly when the needle occurs nowhere |
| `PhpStrings.StrPosFrom` | src/Installer.php:79 | the search from index `i` returns the first occurrence at or after `i`, or `None` when there is none at or after `i` |
| `PhpStrings.StrPosZeroIffStartsWith` | src/Installer.php:79 | `strpos($s, $p) === 0` holds if and only if `$s` starts with `$p` (both directions) |
| `PhpStrings.StartsWithReflexive` | src/Installer.php:79 | every version string starts with itself, so an installed version equal to the required one satisfies it |
| `PhpStrings.EmptyPrefixAlwaysMatches` | src/Installer.php:79 | every string starts with the empty string, and PHP 8 `strpos` finds an empty needle at 0 |
| `PhpStrings.PrefixQuirks` | src/Installer.php:79 | the test is textual: "98.0.12.34" satisfies "98.0", "97.0.1" does not, and "1.10" satisfies "1.1", just as "9.11" satisfies "9.1" |
| `Installation.Execute` | src/Installer.php:35-121 | the run ends at the gate exactly when the gate denies, and at the platform check exactly when the platform is unsupported; past those it skips exactly when the installed version starts with the required one; it ends with a download error, an install error or completion exactly according to the download and install outcomes |
| `Installation.ConsoleIO.Write` | src/Installer.php:89-91 | writing a line appends exactly that line to the console output |
| `Installation.Installer.constructor` | src/Installer.php:27-33 | the installer stores the Composer runtime and the console it is given |
| `Installation.Installer.ExecuteWithConfig` | src/Installer.php:35-121 | the method's trace is the one `Execute` gives for the console's verbosity and the runtime's binary directory, and the console gains exactly that trace's lines, in order |
| `InstallationProperties.LineKinds` | src/Installer.php:67-118 | only the failure report `<error>…</error>` is an error line; "Done" differs from every other line the pipeline writes; the "Installing" line differs from both skip notices |
| `InstallationProperties.GateDeniedDoesNothing` | src/Installer.php:45-47 | if the gate denies, the only call is the gate's: no platform check, version resolution, download or install happens, and nothing is written |
| `InstallationProperties.UnsupportedPlatformSkips` | src/Installer.php:65-73 | if the platform is unsupported, only the gate and the platform check are called, so nothing is resolved, downloaded or installed; the "SKIPPING … platform not supported" line is written if and only if the console is verbose |
| `InstallationProperties.ResolutionPrefix` | src/Installer.php:45-77 | every run that passes the gate and the platform check, whatever its verbosity and later outcome, starts with four calls: the gate, the platform check and both version resolutions, the installed one with the binary directory. Nothing is written before the version decision |
| `InstallationProperties.SkipExactlyWhenPrefix` | src/Installer.php:79-87 | past the platform check, the run stops as already installed if and only if the installed version starts with the required one; such a run neither downloads nor installs, and it writes the "already installed" line only when verbose |
| `InstallationProperties.EmptyRequiredVersionSkips` | src/Installer.php:79-87 | an empty required version always counts as already installed, so nothing is downloaded or installed |
| `InstallationProperties.SecondRunInstallsNothing` | src/Installer.php:79 | a run whose binary reports exactly the required version neither downloads nor installs, whatever its verbosity. The earlier completed run only sets the scene: the lemma also states that the earlier run downloaded and installed |
| `InstallationProperties.DownloadingPrefixContents` | src/Installer.php:89-102 | the fixed trace prefix up to the download request (`DownloadingPrefix`) has as its calls the resolutions followed by the download of `[required]` with 5 attempts, and its one line is the "Installing" announcement. `AnnouncementPrecedesDownload` places this prefix at the start of every run past the version check |
| `InstallationProperties.AnnouncementPrecedesDownload` | src/Installer.php:89-102 | a run past the version check writes the "Installing <driver> (v<version>)" line right after the four resolution calls and right before the download request, whatever the verbosity; the request asks for exactly `[required]` with 5 attempts |
| `InstallationProperties.DownloadFailureReported` | src/Installer.php:101-109 | a failed download ends the run with calls up to the download request, writes exactly the announcement and one `<error>message</error>` line, requests no install and writes no "Done" |
| `InstallationProperties.InstallSuccessReported` | src/Installer.php:111-115 | a downloaded package is installed into the binary directory, and on success the run writes the announcement, an empty line and "Done", in that order |
| `InstallationProperties.InstallFailureReported` | src/Installer.php:111-120 | when installing the downloaded package fails, the run writes exactly the announcement and one `<error>message</error>` line, and no "Done" |
| `InstallationProperties.AnnouncedExactlyWhenProceeding` | src/Installer.php:79-91 | the "Installing" announcement is written if and only if the run gets past the version check |
| `InstallationProperties.DownloadsExactlyWhenProceeding` | src/Installer.php:79-112 | a download is requested if and only if the run gets past the version check; an install is requested if and only if the run also downloaded a package |
| `InstallationProperties.FailuresBecomeOneErrorLine` | src/Installer.php:101-120 | every run returns normally; a failed download or install writes exactly two lines, of which only the second is an error line; every other run writes no error line at all |
| `InstallationProperties.DoneExactlyWhenInstalled` | src/Installer.php:111-120 | "Done" is written if and only if the run completed the install |
| `InstallationProperties.VerbosityOnlyGatesSkipNotices` | src/Installer.php:65-87 | a verbose run and a quiet run make the same calls and take the same exit; they write the same lines, except that a run that stops at the platform or version check writes one line when verbose and nothing when quiet |
| `InstallationProperties.FreshInstallScenario` | src/Installer.php:35-121 | with required version "98.0", no binary present and both collaborators succeeding, the run downloads `["98.0"]` with 5 attempts, installs the package into the binary directory, and writes the announcement, "" and "Done" |

## Left out

- The collaborators' internals are not part of this model, and their results are inputs. This covers
  `DownloadStrategy::shouldAllow`, `ProjectAnalyser` (platform detection, and running the binary to
  read its version), `DownloadManager::downloadRelease` (including its retry loop, backoff and network
  I/O) and `PackageManager::installBinaries` (archive extraction, file writes, permissions, and
  writing through a temporary file). The retry bound and atomic replacement of the binary belong to
  those files, so they are not proved here; the model proves only that the pipeline asks for 5 attempts.
- The Composer plumbing is not modelled: `ComposerContextFactory`, `DownloadManagerFactory`,
  `getConfig` and the `BIN_DIR` / `VENDOR_DIR` lookups. The binary directory is a plain string in
  `ComposerRuntime`, and the vendor directory, which only `PackageManager` uses, is omitted.
- Passing the console to `ProjectAnalyser` when it is in debug mode (src/Installer.php:55) only
  affects logging inside that collaborator, so it is not modelled.
- Exceptions thrown by the gate, the platform check or the two version resolutions are not modelled.
  These calls (src/Installer.php:45, 65, 75, 77) are outside any `try`, so such an exception would
  leave the method. The model treats their results as plain values. In particular, a required version
  that cannot be determined is not reported as an error line: the source has no handler for it at
  that point. "Every run returns normally" (`FailuresBecomeOneErrorLine`) concerns the download and
  the install, the two calls the source guards.
- The model fixes the PHP 8 behaviour of `strpos`: an empty needle is found at offset 0. Under PHP 7,
  `strpos($current, '')` raises a warning and returns `false`, so an empty required version would
  go on to download and install. `EmptyRequiredVersionSkips` and `PhpStrings.EmptyPrefixAlwaysMatches`
  therefore hold only under PHP 8.
- Only the `getMessage()` text of a caught exception is modelled. PHP `Error`s (not `Exception`s),
  which the `catch (\Exception …)` clauses would not catch, are not modelled.
- Console styling is not modelled: each `write` appends its formatted string to a list of lines, and
  the `<info>`, `<comment>` and `<error>` tags are kept as literal text.
- `Installation.Installer.ExecuteWithConfig` returns the trace of what it did as an out-parameter.
  The PHP method returns nothing; the trace is how the model makes its collaborator calls visible.
