/** The installer: pick a release file, identify the distribution and run that
    distribution's install procedure. The filesystem and the child processes
    are abstract; what the program does is recorded as a trace of effects. */
module Installer {
  import opened Distros

  const RootCaFile := "/cacert.pem"
  const OsReleaseFile := "/etc/os-release"
  const UsrLibOsReleaseFile := "/usr/lib/os-release"
  const OsInfoFiles: seq<string> := [OsReleaseFile, UsrLibOsReleaseFile]

  const AlpineBundle := "/etc/ssl/certs/ca-certificates.crt"
  const DebianCertDir := "/usr/local/share/ca-certificates/"
  const FedoraAnchors := "/etc/pki/ca-trust/source/anchors"
  const FedoraTlsBundle := "/etc/pki/ca-trust/extracted/pem/tls-ca-bundle.pem"

  const UpdateCaCertificatesPath := "/usr/sbin/update-ca-certificates"
  const AptPath := "/usr/bin/apt"
  const UpdateCaTrustPath := "/usr/bin/update-ca-trust"
  const TrustPath := "/usr/bin/trust"
  const P11KitPath := "/usr/bin/p11-kit"

  /** What the program can observe of the filesystem: which paths exist, and
      what reading a path yields. The two are separate observations, as a
      path can exist and still be unreadable. */
  datatype Env = Env(present: set<string>, contents: map<string, string>)

  /** `os.Stat` succeeds. */
  function FileExists(env: Env, path: string): (b: bool) {
    path in env.present
  }

  /** A read that fails yields the empty string. */
  function ReadFile(env: Env, path: string): (data: string) {
    if path in env.contents then env.contents[path] else ""
  }

  /** An external program and its arguments. */
  datatype Command = Command(path: string, args: seq<string>)

  const UpdateCaCertificates := Command(UpdateCaCertificatesPath, [])
  const AptUpdate := Command(AptPath, ["update"])
  const AptInstall := Command(AptPath, ["install", "-y", "ca-certificates"])
  const UpdateCaTrust := Command(UpdateCaTrustPath, [])
  const P11KitExtract := Command(P11KitPath,
    ["extract", "--comment", "--format=pem-bundle", "--filter=certificates",
     "--overwrite", "--purpose", "server-auth", FedoraTlsBundle])

  function TrustAnchor(rootCaFile: string): (c: Command) {
    Command(TrustPath, ["anchor", rootCaFile])
  }

  /** The lines the program prints, told apart by their meaning. */
  datatype Message =
    | CouldNotIdentifyDistro
    | Installing(distro: Distro)
    | InstalledUsing(tool: string, status: int)
    | AptMissing
    | FedoraToolsMissing
    | CommandFailed

  /** One observable step of the program. */
  datatype Effect =
    | Print(msg: Message)
    | Append(path: string, data: string)
    | Copy(src: string, dst: string)
    | Exec(cmd: Command)
    | Exit(code: int)

  /** The effects of a procedure, and whether it ended the process. */
  datatype Outcome = Outcome(effects: seq<Effect>, halted: bool)

  // ---------------------------------------------------------------------
  // Specification: the trace each procedure produces. `status` gives the exit
  // code a command would report; nothing but the printed lines depends on it.

  /** Running a command: the command, then an error line when it fails. */
  function ExecEffects(c: Command, status: Command -> int): (t: seq<Effect>) {
    [Exec(c)] + (if status(c) != 0 then [Print(CommandFailed)] else [])
  }

  function FedoraPlan(env: Env, status: Command -> int, rootCaFile: string): (p: Outcome) {
    var prefix := [Print(Installing(Fedora)), Copy(rootCaFile, FedoraAnchors)];
    if FileExists(env, UpdateCaTrustPath) then
      Outcome(prefix + ExecEffects(UpdateCaTrust, status)
              + [Print(InstalledUsing("update-ca-trust", status(UpdateCaTrust)))], false)
    else if FileExists(env, TrustPath) then
      var c := TrustAnchor(rootCaFile);
      Outcome(prefix + ExecEffects(c, status) + [Print(InstalledUsing("trust", status(c)))], false)
    else if FileExists(env, P11KitPath) then
      Outcome(prefix + ExecEffects(P11KitExtract, status)
              + [Print(InstalledUsing("p11-kit", status(P11KitExtract)))], false)
    else
      Outcome(prefix + [Print(FedoraToolsMissing), Exit(0)], true)
  }

  function DebianPlan(env: Env, status: Command -> int, rootCaFile: string): (p: Outcome) {
    var prefix := [Print(Installing(Debian)), Copy(rootCaFile, DebianCertDir + rootCaFile)];
    if !FileExists(env, UpdateCaCertificatesPath) && !FileExists(env, AptPath) then
      Outcome(prefix + [Print(AptMissing), Exit(0)], true)
    else
      var repair :=
        if !FileExists(env, UpdateCaCertificatesPath)
        then ExecEffects(AptUpdate, status) + ExecEffects(AptInstall, status)
        else [];
      Outcome(prefix + repair + ExecEffects(UpdateCaCertificates, status), false)
  }

  function DistroPlan(env: Env, status: Command -> int, distro: Distro): (p: Outcome) {
    match distro
    case Alpine =>
      Outcome([Print(Installing(Alpine)), Append(AlpineBundle, ReadFile(env, RootCaFile))], false)
    case Debian => DebianPlan(env, status, RootCaFile)
    case Fedora => FedoraPlan(env, status, RootCaFile)
    case Unknown => Outcome([], false)
  }

  /** A release file is used when it exists and reads non-empty. */
  predicate Usable(env: Env, path: string) {
    FileExists(env, path) && !IsStringEmpty(ReadFile(env, path))
  }

  /** Returning from the program exits with status 0; a halted outcome has
      already exited. */
  function Finish(o: Outcome): (t: seq<Effect>) {
    if o.halted then o.effects else o.effects + [Exit(0)]
  }

  /** The release-file fallback and the dispatch, up to the point where the
      program returns. */
  function MainBody(env: Env, status: Command -> int): (o: Outcome) {
    if Usable(env, OsInfoFiles[0]) then
      DistroPlan(env, status, IdentifyDistro(ReadFile(env, OsInfoFiles[0])))
    else if Usable(env, OsInfoFiles[1]) then
      DistroPlan(env, status, IdentifyDistro(ReadFile(env, OsInfoFiles[1])))
    else
      Outcome([Print(CouldNotIdentifyDistro)], false)
  }

  /** The whole run. */
  function ProgramPlan(env: Env, status: Command -> int): (t: seq<Effect>) {
    Finish(MainBody(env, status))
  }

  // ---------------------------------------------------------------------
  // Views of a trace.

  /** Everything a trace does other than printing. */
  function Actions(t: seq<Effect>): (r: seq<Effect>) {
    if t == [] then []
    else (if t[0].Print? then [] else [t[0]]) + Actions(t[1..])
  }

  predicate ExitFree(t: seq<Effect>) {
    forall e :: e in t ==> !e.Exit?
  }

  /** A halted outcome ends with its only Exit(0); a running one has none. */
  predicate ExitsCleanly(o: Outcome) {
    if o.halted then
      |o.effects| > 0 && o.effects[|o.effects| - 1] == Exit(0)
      && ExitFree(o.effects[..|o.effects| - 1])
    else ExitFree(o.effects)
  }

  lemma {:induction false} ActionsAppend(a: seq<Effect>, b: seq<Effect>)
    ensures Actions(a + b) == Actions(a) + Actions(b)
  {
    if a == [] {
      assert a + b == b;
    } else {
      assert (a + b)[1..] == a[1..] + b;
      ActionsAppend(a[1..], b);
    }
  }

  /** The actions of a trace are exactly its effects that are not prints. */
  lemma {:induction false} ActionsMembers(t: seq<Effect>, e: Effect)
    ensures e in Actions(t) <==> e in t && !e.Print?
  {
    if t != [] {
      ActionsMembers(t[1..], e);
      assert t == [t[0]] + t[1..];
    }
  }

  lemma ActionsPrint(m: Message, t: seq<Effect>)
    ensures Actions([Print(m)] + t) == Actions(t)
  {
    assert ([Print(m)] + t)[1..] == t;
  }

  lemma ActionsKeep(e: Effect, t: seq<Effect>)
    requires !e.Print?
    ensures Actions([e] + t) == [e] + Actions(t)
  {
    assert ([e] + t)[1..] == t;
  }

  /** Running a command executes exactly that command, whatever it reports. */
  lemma ExecEffectsActions(c: Command, status: Command -> int, rest: seq<Effect>)
    ensures Actions(ExecEffects(c, status) + rest) == [Exec(c)] + Actions(rest)
    ensures ExitFree(ExecEffects(c, status))
  {
    if status(c) != 0 {
      assert ExecEffects(c, status) + rest == [Exec(c)] + ([Print(CommandFailed)] + rest);
      ActionsPrint(CommandFailed, rest);
    } else {
      assert ExecEffects(c, status) + rest == [Exec(c)] + rest;
    }
    ActionsKeep(Exec(c), if status(c) != 0 then [Print(CommandFailed)] + rest else rest);
  }

  // ---------------------------------------------------------------------
  // The procedures.

  /** Debian with update-ca-certificates present: the copy, then
      update-ca-certificates once, and apt never. */
  lemma DebianWithToolActions(env: Env, status: Command -> int, rootCaFile: string)
    requires FileExists(env, UpdateCaCertificatesPath)
    ensures var p := DebianPlan(env, status, rootCaFile);
      && !p.halted && ExitFree(p.effects)
      && Actions(p.effects) == [Copy(rootCaFile, DebianCertDir + rootCaFile), Exec(UpdateCaCertificates)]
  {
    var p := DebianPlan(env, status, rootCaFile);
    var copy := Copy(rootCaFile, DebianCertDir + rootCaFile);
    var last := ExecEffects(UpdateCaCertificates, status);
    ExecEffectsActions(UpdateCaCertificates, status, []);
    assert last + [] == last;
    assert p.effects == [Print(Installing(Debian))] + ([copy] + last);
    ActionsKeep(copy, last);
    ActionsPrint(Installing(Debian), [copy] + last);
  }

  /** Debian without update-ca-certificates but with apt: apt installs the
      package, then update-ca-certificates runs once, last. */
  lemma DebianRepairActions(env: Env, status: Command -> int, rootCaFile: string)
    requires !FileExists(env, UpdateCaCertificatesPath) && FileExists(env, AptPath)
    ensures var p := DebianPlan(env, status, rootCaFile);
      && !p.halted && ExitFree(p.effects)
      && Actions(p.effects) == [Copy(rootCaFile, DebianCertDir + rootCaFile),
                                Exec(AptUpdate), Exec(AptInstall), Exec(UpdateCaCertificates)]
  {
    var p := DebianPlan(env, status, rootCaFile);
    var copy := Copy(rootCaFile, DebianCertDir + rootCaFile);
    var last := ExecEffects(UpdateCaCertificates, status);
    ExecEffectsActions(UpdateCaCertificates, status, []);
    assert last + [] == last;
    var u, i := ExecEffects(AptUpdate, status), ExecEffects(AptInstall, status);
    assert p.effects == [Print(Installing(Debian))] + ([copy] + (u + (i + last)));
    ExecEffectsActions(AptInstall, status, last);
    ExecEffectsActions(AptUpdate, status, i + last);
    ActionsKeep(copy, u + (i + last));
    ActionsPrint(Installing(Debian), [copy] + (u + (i + last)));
  }

  /** Debian with neither update-ca-certificates nor apt: one message, exit 0,
      no command run. */
  lemma DebianGiveUpActions(env: Env, status: Command -> int, rootCaFile: string)
    requires !FileExists(env, UpdateCaCertificatesPath) && !FileExists(env, AptPath)
    ensures var p := DebianPlan(env, status, rootCaFile);
      && p.halted && ExitsCleanly(p)
      && Actions(p.effects) == [Copy(rootCaFile, DebianCertDir + rootCaFile), Exit(0)]
  {
    var p := DebianPlan(env, status, rootCaFile);
    var copy := Copy(rootCaFile, DebianCertDir + rootCaFile);
    assert p.effects == [Print(Installing(Debian))] + ([copy] + ([Print(AptMissing)] + [Exit(0)]));
    ActionsKeep(Exit(0), []);
    ActionsPrint(AptMissing, [Exit(0)]);
    ActionsKeep(copy, [Print(AptMissing)] + [Exit(0)]);
    ActionsPrint(Installing(Debian), [copy] + ([Print(AptMissing)] + [Exit(0)]));
    assert p.effects[..|p.effects| - 1] == [Print(Installing(Debian)), copy, Print(AptMissing)];
  }

  /** Debian, all cases: the process halts exactly when both tools are
      missing, and what runs does not depend on any command's exit code. */
  lemma DebianPlanActions(env: Env, status: Command -> int, rootCaFile: string)
    ensures var p := DebianPlan(env, status, rootCaFile);
      && p.halted == (!FileExists(env, UpdateCaCertificatesPath) && !FileExists(env, AptPath))
      && ExitsCleanly(p)
    ensures forall s2: Command -> int ::
      Actions(DebianPlan(env, s2, rootCaFile).effects) == Actions(DebianPlan(env, status, rootCaFile).effects)
  {
    forall s2: Command -> int
      ensures DebianPlan(env, s2, rootCaFile).halted == DebianPlan(env, status, rootCaFile).halted
      ensures Actions(DebianPlan(env, s2, rootCaFile).effects) == Actions(DebianPlan(env, status, rootCaFile).effects)
      ensures ExitsCleanly(DebianPlan(env, s2, rootCaFile))
    {
      if FileExists(env, UpdateCaCertificatesPath) {
        DebianWithToolActions(env, status, rootCaFile);
        DebianWithToolActions(env, s2, rootCaFile);
      } else if FileExists(env, AptPath) {
        DebianRepairActions(env, status, rootCaFile);
        DebianRepairActions(env, s2, rootCaFile);
      } else {
        DebianGiveUpActions(env, status, rootCaFile);
        DebianGiveUpActions(env, s2, rootCaFile);
      }
    }
  }

  /** A procedure that announces itself, copies, runs one tool and reports. */
  lemma ToolRunActions(head: Message, copy: Effect, c: Command, status: Command -> int, report: Message)
    requires copy.Copy?
    ensures var t := [Print(head)] + ([copy] + (ExecEffects(c, status) + [Print(report)]));
      Actions(t) == [copy, Exec(c)] && ExitFree(t)
  {
    ActionsPrint(report, []);
    assert [Print(report)] == [Print(report)] + [];
    ExecEffectsActions(c, status, [Print(report)]);
    ActionsKeep(copy, ExecEffects(c, status) + [Print(report)]);
    ActionsPrint(head, [copy] + (ExecEffects(c, status) + [Print(report)]));
  }

  /** Fedora: the copy to the anchors path comes first; then exactly one trust
      tool runs, the first present of update-ca-trust, trust, p11-kit; with
      none present one message is printed and the process exits. */
  lemma FedoraPlanActions(env: Env, status: Command -> int, rootCaFile: string)
    ensures var p := FedoraPlan(env, status, rootCaFile);
      && p.halted == (!FileExists(env, UpdateCaTrustPath) && !FileExists(env, TrustPath)
                      && !FileExists(env, P11KitPath))
      && ExitsCleanly(p)
      && Actions(p.effects) ==
           [Copy(rootCaFile, FedoraAnchors)]
           + (if FileExists(env, UpdateCaTrustPath) then [Exec(UpdateCaTrust)]
              else if FileExists(env, TrustPath) then [Exec(TrustAnchor(rootCaFile))]
              else if FileExists(env, P11KitPath) then [Exec(P11KitExtract)]
              else [Exit(0)])
      && (p.halted ==> p.effects == [Print(Installing(Fedora)), Copy(rootCaFile, FedoraAnchors),
                                     Print(FedoraToolsMissing), Exit(0)])
  {
    var p := FedoraPlan(env, status, rootCaFile);
    var copy := Copy(rootCaFile, FedoraAnchors);
    if p.halted {
      assert p.effects == [Print(Installing(Fedora))] + ([copy] + ([Print(FedoraToolsMissing)] + [Exit(0)]));
      ActionsKeep(Exit(0), []);
      ActionsPrint(FedoraToolsMissing, [Exit(0)]);
      ActionsKeep(copy, [Print(FedoraToolsMissing)] + [Exit(0)]);
      ActionsPrint(Installing(Fedora), [copy] + ([Print(FedoraToolsMissing)] + [Exit(0)]));
      assert p.effects[..|p.effects| - 1] == [Print(Installing(Fedora)), copy, Print(FedoraToolsMissing)];
    } else if FileExists(env, UpdateCaTrustPath) {
      assert p.effects == [Print(Installing(Fedora))]
        + ([copy] + (ExecEffects(UpdateCaTrust, status)
                     + [Print(InstalledUsing("update-ca-trust", status(UpdateCaTrust)))]));
      ToolRunActions(Installing(Fedora), copy, UpdateCaTrust, status,
                     InstalledUsing("update-ca-trust", status(UpdateCaTrust)));
    } else if FileExists(env, TrustPath) {
      assert p.effects == [Print(Installing(Fedora))]
        + ([copy] + (ExecEffects(TrustAnchor(rootCaFile), status)
                     + [Print(InstalledUsing("trust", status(TrustAnchor(rootCaFile))))]));
      ToolRunActions(Installing(Fedora), copy, TrustAnchor(rootCaFile), status,
                     InstalledUsing("trust", status(TrustAnchor(rootCaFile))));
    } else {
      assert p.effects == [Print(Installing(Fedora))]
        + ([copy] + (ExecEffects(P11KitExtract, status)
                     + [Print(InstalledUsing("p11-kit", status(P11KitExtract)))]));
      ToolRunActions(Installing(Fedora), copy, P11KitExtract, status,
                     InstalledUsing("p11-kit", status(P11KitExtract)));
    }
  }

  /** Which install runs depends only on the distribution; Unknown does nothing. */
  lemma DistroPlanActions(env: Env, status: Command -> int, distro: Distro)
    ensures var p := DistroPlan(env, status, distro);
      && ExitsCleanly(p)
      && (distro == Unknown ==> p == Outcome([], false))
      && (distro == Alpine ==>
            !p.halted && Actions(p.effects) == [Append(AlpineBundle, ReadFile(env, RootCaFile))])
      && (distro == Debian ==> p == DebianPlan(env, status, RootCaFile))
      && (distro == Fedora ==> p == FedoraPlan(env, status, RootCaFile))
    ensures forall s2: Command -> int ::
      && DistroPlan(env, s2, distro).halted == DistroPlan(env, status, distro).halted
      && Actions(DistroPlan(env, s2, distro).effects) == Actions(DistroPlan(env, status, distro).effects)
  {
    match distro
    case Alpine =>
      forall s2: Command -> int
        ensures Actions(DistroPlan(env, s2, distro).effects) == [Append(AlpineBundle, ReadFile(env, RootCaFile))]
      {
        var t := DistroPlan(env, s2, distro).effects;
        ActionsKeep(t[1], []);
        ActionsPrint(Installing(Alpine), [t[1]]);
        assert t == [Print(Installing(Alpine))] + [t[1]];
      }
    case Debian =>
      DebianPlanActions(env, status, RootCaFile);
      forall s2: Command -> int ensures DistroPlan(env, s2, distro).halted == DistroPlan(env, status, distro).halted {
        DebianPlanActions(env, s2, RootCaFile);
      }
    case Fedora =>
      FedoraPlanActions(env, status, RootCaFile);
      forall s2: Command -> int
        ensures DistroPlan(env, s2, distro).halted == DistroPlan(env, status, distro).halted
        ensures Actions(DistroPlan(env, s2, distro).effects) == Actions(DistroPlan(env, status, distro).effects)
      {
        FedoraPlanActions(env, s2, RootCaFile);
      }
    case Unknown =>
  }

  // ---------------------------------------------------------------------
  // The whole program.

  lemma FinishExitsOnce(o: Outcome)
    requires ExitsCleanly(o)
    ensures var t := Finish(o);
      |t| > 0 && t[|t| - 1] == Exit(0) && ExitFree(t[..|t| - 1])
  {
    if !o.halted {
      assert Finish(o)[..|Finish(o)| - 1] == o.effects;
    }
  }

  /** Whatever file is chosen and whatever it says, the body before the
      program returns exits only at its end, and the exit codes commands
      report change nothing but the printed lines. */
  lemma MainBodyActions(env: Env, status: Command -> int)
    ensures ExitsCleanly(MainBody(env, status))
    ensures forall s2: Command -> int ::
      && MainBody(env, s2).halted == MainBody(env, status).halted
      && Actions(MainBody(env, s2).effects) == Actions(MainBody(env, status).effects)
  {
    if Usable(env, OsInfoFiles[0]) {
      DistroPlanActions(env, status, IdentifyDistro(ReadFile(env, OsInfoFiles[0])));
    } else if Usable(env, OsInfoFiles[1]) {
      DistroPlanActions(env, status, IdentifyDistro(ReadFile(env, OsInfoFiles[1])));
    }
  }

  /** The process always exits with status 0, exactly once, as its last step. */
  lemma ProgramExitsZero(env: Env, status: Command -> int)
    ensures var t := ProgramPlan(env, status);
      |t| > 0 && t[|t| - 1] == Exit(0) && ExitFree(t[..|t| - 1])
  {
    MainBodyActions(env, status);
    FinishExitsOnce(MainBody(env, status));
  }

  /** /etc/os-release is used when it exists and reads non-empty, and
      /usr/lib/os-release only otherwise; with neither, the run only prints
      that the distribution was not identified. */
  lemma ReleaseFileSelection(env: Env, status: Command -> int)
    ensures Usable(env, OsReleaseFile) ==>
      ProgramPlan(env, status)
        == Finish(DistroPlan(env, status, IdentifyDistro(ReadFile(env, OsReleaseFile))))
    ensures !Usable(env, OsReleaseFile) && Usable(env, UsrLibOsReleaseFile) ==>
      ProgramPlan(env, status)
        == Finish(DistroPlan(env, status, IdentifyDistro(ReadFile(env, UsrLibOsReleaseFile))))
    ensures !Usable(env, OsReleaseFile) && !Usable(env, UsrLibOsReleaseFile) ==>
      ProgramPlan(env, status) == [Print(CouldNotIdentifyDistro), Exit(0)]
    ensures forall path :: Usable(env, path) <==> path in env.present && ReadFile(env, path) != []
  {
  }

  /** A release file that names no supported distribution leads to no install:
      the run does nothing but exit. */
  lemma UnknownDistroDoesNothing(env: Env, status: Command -> int, path: string)
    requires path == OsReleaseFile || (path == UsrLibOsReleaseFile && !Usable(env, OsReleaseFile))
    requires Usable(env, path)
    requires IdentifyDistro(ReadFile(env, path)) == Unknown
    ensures ProgramPlan(env, status) == [Exit(0)]
  {
  }

  /** Two environments that differ at most in /usr/lib/os-release. */
  predicate AgreeExceptSecondary(e1: Env, e2: Env) {
    && e1.present - {UsrLibOsReleaseFile} == e2.present - {UsrLibOsReleaseFile}
    && e1.contents - {UsrLibOsReleaseFile} == e2.contents - {UsrLibOsReleaseFile}
  }

  /** Both environments agree on a path other than /usr/lib/os-release. */
  lemma AgreeAt(e1: Env, e2: Env, p: string)
    requires AgreeExceptSecondary(e1, e2)
    requires p != UsrLibOsReleaseFile
    ensures FileExists(e1, p) == FileExists(e2, p) && ReadFile(e1, p) == ReadFile(e2, p)
  {
    assert p in e1.present <==> p in e1.present - {UsrLibOsReleaseFile};
    assert p in e2.present <==> p in e2.present - {UsrLibOsReleaseFile};
    assert p in e1.contents <==> p in e1.contents - {UsrLibOsReleaseFile};
    assert p in e2.contents <==> p in e2.contents - {UsrLibOsReleaseFile};
    assert p in e1.contents ==> e1.contents[p] == (e1.contents - {UsrLibOsReleaseFile})[p];
    assert p in e2.contents ==> e2.contents[p] == (e2.contents - {UsrLibOsReleaseFile})[p];
  }

  /** While /etc/os-release is usable, nothing about /usr/lib/os-release
      affects the run. */
  lemma SecondaryUnusedWhenPrimaryUsable(e1: Env, e2: Env, status: Command -> int)
    requires AgreeExceptSecondary(e1, e2)
    requires Usable(e1, OsReleaseFile)
    ensures ProgramPlan(e1, status) == ProgramPlan(e2, status)
  {
    AgreeAt(e1, e2, OsReleaseFile);
    AgreeAt(e1, e2, RootCaFile);
    AgreeAt(e1, e2, UpdateCaCertificatesPath);
    AgreeAt(e1, e2, AptPath);
    AgreeAt(e1, e2, UpdateCaTrustPath);
    AgreeAt(e1, e2, TrustPath);
    AgreeAt(e1, e2, P11KitPath);
  }

  /** The exit codes that commands report never change what the program does
      besides printing. */
  lemma StatusNeverSteers(env: Env, s1: Command -> int, s2: Command -> int)
    ensures Actions(ProgramPlan(env, s1)) == Actions(ProgramPlan(env, s2))
  {
    MainBodyActions(env, s1);
    var o1, o2 := MainBody(env, s1), MainBody(env, s2);
    if !o1.halted {
      ActionsAppend(o1.effects, [Exit(0)]);
      ActionsAppend(o2.effects, [Exit(0)]);
    }
  }

  /** Wherever update-ca-certificates is present, apt is never executed. */
  lemma AptNeverRunsWithUpdateCaCertificates(env: Env, status: Command -> int)
    requires FileExists(env, UpdateCaCertificatesPath)
    ensures forall c :: Exec(c) in ProgramPlan(env, status) ==> c.path != AptPath
  {
    var o := MainBody(env, status);
    assert forall c :: Exec(c) in Actions(o.effects) ==> c.path != AptPath by {
      if Usable(env, OsInfoFiles[0]) || Usable(env, OsInfoFiles[1]) {
        var d := IdentifyDistro(ReadFile(env, if Usable(env, OsInfoFiles[0]) then OsInfoFiles[0] else OsInfoFiles[1]));
        assert o == DistroPlan(env, status, d);
        DistroPlanActions(env, status, d);
        if d == Debian {
          DebianWithToolActions(env, status, RootCaFile);
        } else if d == Fedora {
          FedoraPlanActions(env, status, RootCaFile);
        }
      } else {
        ActionsPrint(CouldNotIdentifyDistro, []);
        assert o.effects == [Print(CouldNotIdentifyDistro)] + [];
      }
    }
    forall c | Exec(c) in ProgramPlan(env, status)
      ensures c.path != AptPath
    {
      ActionsMembers(o.effects, Exec(c));
    }
  }

  /** A run on a system identified as Debian from /etc/os-release, with
      update-ca-certificates installed: the certificate is copied to the Debian
      path, apt is not run, update-ca-certificates runs exactly once, and the
      exit status is 0. */
  lemma DebianDetectedRun(env: Env, status: Command -> int)
    requires Usable(env, OsReleaseFile)
    requires IdentifyDistro(ReadFile(env, OsReleaseFile)) == Debian
    requires FileExists(env, UpdateCaCertificatesPath)
    ensures Actions(ProgramPlan(env, status)) ==
      [Copy(RootCaFile, "/usr/local/share/ca-certificates//cacert.pem"),
       Exec(UpdateCaCertificates), Exit(0)]
  {
    var p := DebianPlan(env, status, RootCaFile);
    assert ProgramPlan(env, status) == p.effects + [Exit(0)];
    DebianWithToolActions(env, status, RootCaFile);
    ActionsAppend(p.effects, [Exit(0)]);
    ActionsKeep(Exit(0), []);
    assert DebianCertDir + RootCaFile == "/usr/local/share/ca-certificates//cacert.pem";
  }

  /** The same for the release file "ID=debian\nVERSION=11\n". */
  lemma DebianEndToEnd(env: Env, status: Command -> int)
    requires FileExists(env, OsReleaseFile)
    requires ReadFile(env, OsReleaseFile) == "ID=debian\nVERSION=11\n"
    requires FileExists(env, UpdateCaCertificatesPath)
    ensures Actions(ProgramPlan(env, status)) ==
      [Copy(RootCaFile, "/usr/local/share/ca-certificates//cacert.pem"),
       Exec(UpdateCaCertificates), Exit(0)]
  {
    IdentifyDebianExample();
    DebianDetectedRun(env, status);
  }

  // ---------------------------------------------------------------------
  // The program, step by step: a process whose trace grows with each effect.

  class Process {
    const env: Env
    const status: Command -> int
    var trace: seq<Effect>
    /** The process has called os.Exit; nothing runs after that. */
    var exited: bool

    constructor (env: Env, status: Command -> int)
      ensures this.env == env && this.status == status
      ensures trace == [] && !exited
    {
      this.env := env;
      this.status := status;
      trace := [];
      exited := false;
    }

    method Println(m: Message)
      requires !exited
      modifies this
      ensures trace == old(trace) + [Print(m)] && !exited
    {
      trace := trace + [Print(m)];
    }

    /** os.Exit(0). */
    method Exit()
      requires !exited
      modifies this
      ensures trace == old(trace) + [Effect.Exit(0)] && exited
    {
      trace := trace + [Effect.Exit(0)];
      exited := true;
    }

    /** Whether the copy succeeds is not decided here. */
    method CopyFile(src: string, dst: string)
      requires !exited
      modifies this
      ensures trace == old(trace) + [Copy(src, dst)] && !exited
    {
      trace := trace + [Copy(src, dst)];
    }

    /** Whether the append succeeds is not decided here. */
    method AppendFile(path: string, data: string)
      requires !exited
      modifies this
      ensures trace == old(trace) + [Append(path, data)] && !exited
    {
      trace := trace + [Append(path, data)];
    }

    /** Runs a command, prints an error line when it fails, and returns its
        exit code. */
    method ExecuteCommand(c: Command) returns (code: int)
      requires !exited
      modifies this
      ensures code == status(c)
      ensures trace == old(trace) + ExecEffects(c, status) && !exited
    {
      trace := trace + [Exec(c)];
      code := status(c);
      if code != 0 {
        Println(CommandFailed);
      }
    }

    method InstallCertsOnFedora(rootCaFile: string)
      requires !exited
      modifies this
      ensures var p := FedoraPlan(env, status, rootCaFile);
        trace == old(trace) + p.effects && exited == p.halted
    {
      Println(Installing(Fedora));
      CopyFile(rootCaFile, FedoraAnchors);
      if FileExists(env, UpdateCaTrustPath) {
        var result := ExecuteCommand(UpdateCaTrust);
        Println(InstalledUsing("update-ca-trust", result));
      } else if FileExists(env, TrustPath) {
        var result := ExecuteCommand(TrustAnchor(rootCaFile));
        Println(InstalledUsing("trust", result));
      } else if FileExists(env, P11KitPath) {
        var result := ExecuteCommand(P11KitExtract);
        Println(InstalledUsing("p11-kit", result));
      } else {
        Println(FedoraToolsMissing);
        Exit();
      }
    }

    method InstallCertsOnDebian(rootCaFile: string)
      requires !exited
      modifies this
      ensures var p := DebianPlan(env, status, rootCaFile);
        trace == old(trace) + p.effects && exited == p.halted
    {
      Println(Installing(Debian));
      CopyFile(rootCaFile, DebianCertDir + rootCaFile);
      if !FileExists(env, UpdateCaCertificatesPath) {
        if !FileExists(env, AptPath) {
          Println(AptMissing);
          Exit();
          return;
        }
        var _ := ExecuteCommand(AptUpdate);
        var _ := ExecuteCommand(AptInstall);
      }
      var _ := ExecuteCommand(UpdateCaCertificates);
    }

    method InstallCertsForDistro(distro: Distro)
      requires !exited
      modifies this
      ensures var p := DistroPlan(env, status, distro);
        trace == old(trace) + p.effects && exited == p.halted
    {
      match distro
      case Alpine =>
        Println(Installing(Alpine));
        AppendFile(AlpineBundle, ReadFile(env, RootCaFile));
      case Debian =>
        InstallCertsOnDebian(RootCaFile);
      case Fedora =>
        InstallCertsOnFedora(RootCaFile);
      case Unknown =>
    }

    /** The program's entry point; returning from it exits with status 0. */
    method Run()
      requires !exited
      modifies this
      ensures trace == old(trace) + ProgramPlan(env, status) && exited
    {
      if FileExists(env, OsInfoFiles[0]) && !IsStringEmpty(ReadFile(env, OsInfoFiles[0])) {
        var distro := IdentifyDistro(ReadFile(env, OsInfoFiles[0]));
        InstallCertsForDistro(distro);
      } else if FileExists(env, OsInfoFiles[1]) && !IsStringEmpty(ReadFile(env, OsInfoFiles[1])) {
        var distro := IdentifyDistro(ReadFile(env, OsInfoFiles[1]));
        InstallCertsForDistro(distro);
      } else {
        Println(CouldNotIdentifyDistro);
      }
      if !exited {
        Exit();
      }
    }
  }
}
