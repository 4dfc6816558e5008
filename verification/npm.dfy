/** npm.go (package main): the oldest helpers, npm only. */
module NpmCommands {
  import opened Results
  import opened Commands
  import opened PackageManagers

  datatype Outcome = Outcome(cmd: Cmd, err: Option<CommandError>)

  /** `npmRemove`: runs `npm remove [-g] <pkg...>`; nil iff the command succeeds. */
  function NpmRemove(isGlobal: bool, pkgs: seq<string>, run: Cmd -> RunResult): (o: Outcome)
    ensures o.cmd.name == "npm"
    ensures Argv(o.cmd) == ManagerArgv(Npm, "remove", ScopeOf(isGlobal), pkgs)
    ensures o.err.None? <==> run(o.cmd).Succeeded?
    ensures o.err.Some? ==> o.err.value == CommandError(o.cmd, run(o.cmd))
  {
    var cmd := Cmd("npm", ["remove"] + (if isGlobal then ["-g"] else []) + pkgs);
    Outcome(cmd, ErrorOf(cmd, run(cmd)))
  }

  /** `npmInstall`: runs `npm install [-g] <pkg...>`; nil iff the command succeeds. */
  function NpmInstall(isGlobal: bool, pkgs: seq<string>, run: Cmd -> RunResult): (o: Outcome)
    ensures o.cmd.name == "npm"
    ensures Argv(o.cmd) == ManagerArgv(Npm, "install", ScopeOf(isGlobal), pkgs)
    ensures o.err.None? <==> run(o.cmd).Succeeded?
    ensures o.err.Some? ==> o.err.value == CommandError(o.cmd, run(o.cmd))
  {
    var cmd := Cmd("npm", ["install"] + (if isGlobal then ["-g"] else []) + pkgs);
    Outcome(cmd, ErrorOf(cmd, run(cmd)))
  }

  /** The two argument lists differ only in their first token, the verb. */
  lemma NpmRemoveAndInstallDifferOnlyInVerb(isGlobal: bool, pkgs: seq<string>, run: Cmd -> RunResult)
    ensures var rm, inst := NpmRemove(isGlobal, pkgs, run).cmd.args, NpmInstall(isGlobal, pkgs, run).cmd.args;
      |rm| == |inst| && rm[0] == "remove" && inst[0] == "install" && rm[1..] == inst[1..]
  {
  }
}
