# Root CA installer: a Dafny model

This project models a small program that runs as a container build step and
installs the root certificate `/cacert.pem` into the trust store of the image's
Linux distribution. The program:

1. picks a release file: `/etc/os-release` if it exists and reads non-empty,
   otherwise `/usr/lib/os-release` under the same test. If neither qualifies,
   it prints that the distribution could not be identified;
2. identifies the distribution. It lowercases the file's text and looks for
   `debian`, then `alpine`, then `fedora`. The first one found wins, and
   otherwise the result is `Unknown`;
3. runs that distribution's procedure. Alpine appends the certificate to the
   flat bundle. Debian copies it, installs `ca-certificates` with apt only when
   `update-ca-certificates` is missing, and then runs `update-ca-certificates`.
   Fedora copies it to the anchors path and runs the first tool present among
   `update-ca-trust`, `trust` and `p11-kit`. `Unknown` does nothing;
4. always exits with status 0.

Two modules:

- `distro.dfy`, module `Distros`: the `Distro` enumeration, ASCII lowercasing,
  substring search, `IsStringEmpty` and `IdentifyDistro`. A second,
  independent definition of case-insensitive search (`ContainsIgnoreCase`)
  states what identification means.
- `installer.dfy`, module `Installer`: the program over an abstract
  environment (`Env`), with two parts.
  - The environment has the set of paths that exist and a map giving what
    reading a path yields. A failed read yields `""`, as in the source.
  - Each step of the program is an `Effect`: `Print`, `Append`, `Copy`,
    `Exec` or `Exit`.
  - `DebianPlan`, `FedoraPlan`, `DistroPlan`, `MainBody` and `ProgramPlan` are
    the specification. They give the trace each procedure produces.
  - The class `Process` mirrors the source's functions as methods that extend
    a `trace` field. `exited` marks the end of the process, either by
    `os.Exit(0)` or by `main` returning. Each method is
    proved to produce exactly its specification's trace.
  - The lemmas state the program's promises about those traces. `Actions(t)`
    is the trace without its printed lines.

The exit code that a child process reports comes from a parameter
`status: Command -> int`. The model treats it as an arbitrary value. It only
reaches the printed lines. `executeCommand` prints an error line exactly when
that code is non-zero.

An identified-but-`Unknown` distribution produces no effect and prints nothing
(main.go:31-41). The "could not identify" message is printed only when no
release file qualifies (main.go:26-28).

Two literals are kept exactly as the code writes them. The Debian destination,
`"/usr/local/share/ca-certificates/" + "/cacert.pem"`, has a doubled slash. The
Fedora copy targets the directory path `/etc/pki/ca-trust/source/anchors`.

## Model

| member | source | states |
|---|---|---|
| `Distros.ToLower` | main.go:83 | the lowercased text has the input's length and each character is the ASCII-lowercased input character |
| `Distros.ContainsLowerIff` | main.go:83-90 | searching the lowercased contents for a lowercased word is equivalent to a case-insensitive search for it |
| `Distros.IdentifyDistroMeaning` | main.go:82-94 | Debian iff "debian" occurs (ignoring case); Alpine iff "alpine" occurs and "debian" does not; Fedora iff "fedora" occurs and neither other does; Unknown iff none of the three occurs |
| `Distros.IdentifyDistroIgnoresCase` | main.go:83 | contents that differ only in ASCII letter case are identified alike |
| `Distros.IdentifyDistroOfLowered` | main.go:83 | lowercasing the contents beforehand does not change the result |
| `Distros.IdentifyDebianExample` | main.go:82-94 | "ID=debian\nVERSION=11\n" is identified as Debian |
| `Distros.IdentifyUbuntuExample` | main.go:85-86 | an Ubuntu release file naming Debian in ID_LIKE is identified as Debian |
| `Distros.IdentifyFedoraExample` | main.go:83-90 | "Fedora", with an upper-case F, is identified as Fedora |
| `Installer.ExecEffectsActions` | main.go:139-149 | running a command executes exactly that command and never exits, whatever exit code it reports |
| `Installer.DebianWithToolActions` | main.go:63-80 | with update-ca-certificates present the Debian procedure copies the certificate to "/usr/local/share/ca-certificates/" + the file path, then runs update-ca-certificates once, never apt, and does not exit |
| `Installer.DebianRepairActions` | main.go:67-79 | with update-ca-certificates missing and apt present it copies, runs "apt update", "apt install -y ca-certificates", then update-ca-certificates, last |
| `Installer.DebianGiveUpActions` | main.go:67-71 | with both update-ca-certificates and apt missing it copies, runs no command and exits 0 as its last step |
| `Installer.DebianPlanActions` | main.go:63-80 | the Debian procedure halts exactly when both tools are missing, exits only as its last step, and what it does does not depend on any command's exit code |
| `Installer.FedoraPlanActions` | main.go:43-61 | the Fedora procedure copies to "/etc/pki/ca-trust/source/anchors", then runs exactly one tool, the first present of update-ca-trust, trust anchor, p11-kit extract; with none present it prints one message and exits 0; it halts exactly then |
| `Installer.DistroPlanActions` | main.go:31-41 | Alpine only appends the certificate's contents to the bundle; Debian and Fedora run their procedures with /cacert.pem; Unknown has no effect; no exit except as a last step; exit codes never steer |
| `Installer.MainBodyActions` | main.go:19-29 | whichever release file is chosen, the run before returning exits only at its end, and exit codes reported by commands never change what it does besides printing |
| `Installer.ProgramExitsZero` | main.go:19-80 | every run ends with Exit(0), and no other exit occurs before it |
| `Installer.ReleaseFileSelection` | main.go:19-29 | /etc/os-release is used when it exists and reads non-empty; /usr/lib/os-release only otherwise; with neither, the run is the one message followed by exit 0; a file qualifies exactly when it exists and reads non-empty, the isStringEmpty test of main.go:101-103 |
| `Installer.UnknownDistroDoesNothing` | main.go:31-41 | when the chosen release file names no supported distribution, the run does nothing but exit 0 |
| `Installer.SecondaryUnusedWhenPrimaryUsable` | main.go:20-25 | while /etc/os-release is usable, changing /usr/lib/os-release in any way does not change the run |
| `Installer.StatusNeverSteers` | main.go:139-149 | two runs that differ only in the exit codes commands report perform the same copies, appends, commands and exit |
| `Installer.AptNeverRunsWithUpdateCaCertificates` | main.go:67-76 | on any distribution, if update-ca-certificates exists, no command under /usr/bin/apt is ever executed |
| `Installer.DebianDetectedRun` | main.go:63-80 | a run identified as Debian from /etc/os-release, with update-ca-certificates present, copies to "/usr/local/share/ca-certificates//cacert.pem", runs update-ca-certificates once and exits 0, and does nothing else |
| `Installer.DebianEndToEnd` | main.go:19-25 | the same for the release file "ID=debian\nVERSION=11\n" |
| `Installer.Process.ExecuteCommand` | main.go:139-149 | appends the command, plus an error line when its exit code is non-zero, and returns that exit code |
| `Installer.Process.CopyFile` | main.go:126-137 | records one copy from the source path to the destination path |
| `Installer.Process.AppendFile` | main.go:113-124 | records one append of the data to the path |
| `Installer.Process.Exit` | main.go:59 | records Exit(0) and marks the process as ended |
| `Installer.Process.InstallCertsOnFedora` | main.go:43-61 | extends the trace by exactly FedoraPlan and ends the process exactly when that plan halts |
| `Installer.Process.InstallCertsOnDebian` | main.go:63-80 | extends the trace by exactly DebianPlan and ends the process exactly when that plan halts |
| `Installer.Process.InstallCertsForDistro` | main.go:31-41 | extends the trace by exactly DistroPlan for the given distribution |
| `Installer.Process.Run` | main.go:19-29 | extends the trace by exactly ProgramPlan and always ends the process |

## Left out

- `Distros.ToLower`: lowercases ASCII letters only, where Go's `strings.ToLower` maps all of Unicode. Non-ASCII letters that Go lowercases to an ASCII letter are therefore missed: Go maps U+0130 'İ' to 'i', so the program identifies "DEBİAN" as Debian and "ALPİNE" as Alpine, while the model identifies both as Unknown.
- `Distros.IdentifyDistro` takes the release file's contents rather than its path. The installer passes it `ReadFile(env, path)`, which is what the source's function reads.
- `Installer.Process.CopyFile`: the reads and writes of the real filesystem are not modelled, so whether the copy succeeds, and the error lines it prints when it does not, are left out. In particular, whether copying onto the directory `/etc/pki/ca-trust/source/anchors` succeeds is not decided; the effect keeps that literal destination.
- `Installer.Process.AppendFile`: as for the copy, whether the append succeeds and its error lines are left out.
- `Installer.Process.ExecuteCommand`: process start-up, the working directory, and the streaming of the child's output are left out. The exit code comes from the `status` parameter. An error line is printed exactly when that code is non-zero, which is when Go's `cmd.Run` returns an error for a process that writes straight to the parent's descriptors.
- The text of printed messages is modelled only as the kind of message (`Message`), with the tool name and exit code where the source formats them.
- The debug log file described in the source's header comment is not implemented there and is not modelled.
- Copies and appends do not change the environment. Nothing in the program reads a path it has written.
