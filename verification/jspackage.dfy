/** jspackage/jspackage.go: manager detection, and `Remove` / `Add`, which build the
    manager command and run it. The run is an input: `run` tells what happens when a
    command is executed. */
module JsPackage {
  import opened Results
  import opened Paths
  import opened Commands
  import opened PackageManagers

  /** `DetectManager`: yarn iff `<dir>/yarn.lock` is found; npm when it is missing and
      when the check fails. */
  function DetectManager(fileSystem: string -> PathCheck, dir: string): (m: Tool)
    ensures m == Yarn <==> CheckPath(fileSystem, Join(dir, "yarn.lock")) == Exists
    ensures m == Npm <==> CheckPath(fileSystem, Join(dir, "yarn.lock")) != Exists
  {
    DetectFromLockFile(fileSystem, dir)
  }

  /** A command that was run and the error the Go function returned for it. */
  datatype Outcome = Outcome(cmd: Cmd, err: Option<CommandError>)

  /** `Remove`: runs `npm remove [-g] <pkg...>` or `yarn [global] remove <pkg...>` and
      returns nil exactly when the command succeeds; a failure is returned for npm and
      yarn alike. A manager other than the two leaves the command nil, and the source
      then dereferences it, so such a call is excluded. */
  function Remove(m: Tool, isGlobal: bool, pkgs: seq<string>, run: Cmd -> RunResult): (o: Outcome)
    requires m == Npm || m == Yarn
    ensures o.cmd.name == (if m == Npm then "npm" else "yarn")
    ensures Argv(o.cmd) == ManagerArgv(m, "remove", ScopeOf(isGlobal), pkgs)
    ensures o.err.None? <==> run(o.cmd).Succeeded?
    ensures o.err.Some? ==> o.err.value == CommandError(o.cmd, run(o.cmd))
  {
    var args := match m
      case Npm => ["remove"] + (if isGlobal then ["-g"] else []) + pkgs
      case Yarn => (if isGlobal then ["global"] else []) + ["remove"] + pkgs;
    var cmd := Cmd(if m == Npm then "npm" else "yarn", args);
    Outcome(cmd, ErrorOf(cmd, run(cmd)))
  }

  /** `Add`: runs `npm install [-g] <pkg...>` or `yarn [global] add <pkg...>`, with the
      same scope-flag placement and the same error rule as `Remove`. */
  function Add(m: Tool, isGlobal: bool, pkgs: seq<string>, run: Cmd -> RunResult): (o: Outcome)
    requires m == Npm || m == Yarn
    ensures o.cmd.name == (if m == Npm then "npm" else "yarn")
    ensures Argv(o.cmd) == ManagerArgv(m, VerbFor(m, AddPackages), ScopeOf(isGlobal), pkgs)
    ensures o.err.None? <==> run(o.cmd).Succeeded?
    ensures o.err.Some? ==> o.err.value == CommandError(o.cmd, run(o.cmd))
  {
    var args := match m
      case Npm => ["install"] + (if isGlobal then ["-g"] else []) + pkgs
      case Yarn => (if isGlobal then ["global"] else []) + ["add"] + pkgs;
    var cmd := Cmd(if m == Npm then "npm" else "yarn", args);
    Outcome(cmd, ErrorOf(cmd, run(cmd)))
  }
}
