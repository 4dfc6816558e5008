/** packageManager.go (package main): the older in-tree copy of the manager helpers.
    It differs from jspackage in one rule: a failed yarn removal is not reported. */
module MainPackageManager {
  import opened Results
  import opened Paths
  import opened Commands
  import opened PackageManagers
  import JsPackage

  /** `detectJsPackageManager`: yarn iff `<dir>/yarn.lock` is found, npm otherwise,
      including when the check fails. */
  function DetectJsPackageManager(fileSystem: string -> PathCheck, dir: string): (m: Tool)
    ensures m == Yarn <==> CheckPath(fileSystem, Join(dir, "yarn.lock")) == Exists
    ensures m == Npm <==> CheckPath(fileSystem, Join(dir, "yarn.lock")) != Exists
  {
    DetectFromLockFile(fileSystem, dir)
  }

  datatype Outcome = Outcome(cmd: Cmd, err: Option<CommandError>)

  /** `removeJsPackages`: runs the removal; with yarn the result is always nil, since
      yarn fails on packages that were never added; with npm an error is returned iff
      the command fails. Other managers dereference a nil command and are excluded. */
  function RemoveJsPackages(m: Tool, isGlobal: bool, pkgs: seq<string>, run: Cmd -> RunResult): (o: Outcome)
    requires m == Npm || m == Yarn
    ensures Argv(o.cmd) == ManagerArgv(m, "remove", ScopeOf(isGlobal), pkgs)
    ensures m == Yarn ==> o.err.None?
    ensures m == Npm ==> (o.err.None? <==> run(o.cmd).Succeeded?)
    ensures o.err.Some? ==> o.err.value == CommandError(o.cmd, run(o.cmd))
  {
    var args := match m
      case Npm => ["remove"] + (if isGlobal then ["-g"] else []) + pkgs
      case Yarn => (if isGlobal then ["global"] else []) + ["remove"] + pkgs;
    var cmd := Cmd(if m == Npm then "npm" else "yarn", args);
    var result := run(cmd);
    Outcome(cmd, if !result.Succeeded? && m != Yarn then Some(CommandError(cmd, result)) else None)
  }

  /** `addJsPackages`: runs the install ("install" for npm, "add" for yarn) and returns
      an error iff the command fails, for both managers. */
  function AddJsPackages(m: Tool, isGlobal: bool, pkgs: seq<string>, run: Cmd -> RunResult): (o: Outcome)
    requires m == Npm || m == Yarn
    ensures Argv(o.cmd) == ManagerArgv(m, VerbFor(m, AddPackages), ScopeOf(isGlobal), pkgs)
    ensures o.err.None? <==> run(o.cmd).Succeeded?
    ensures o.err.Some? ==> o.err.value == CommandError(o.cmd, run(o.cmd))
  {
    var args := match m
      case Npm => ["install"] + (if isGlobal then ["-g"] else []) + pkgs
      case Yarn => (if isGlobal then ["global"] else []) + ["add"] + pkgs;
    var cmd := Cmd(if m == Npm then "npm" else "yarn", args);
    Outcome(cmd, ErrorOf(cmd, run(cmd)))
  }

  /** Against jspackage's `Remove`, on the same manager, packages and outcomes: both run
      the same command; with npm they report the same error, while with yarn this copy
      reports nothing even when the command fails and jspackage reports the failure. */
  lemma YarnRemovalSwallowsFailure(m: Tool, isGlobal: bool, pkgs: seq<string>, run: Cmd -> RunResult)
    requires m == Npm || m == Yarn
    ensures RemoveJsPackages(m, isGlobal, pkgs, run).cmd == JsPackage.Remove(m, isGlobal, pkgs, run).cmd
    ensures m == Npm ==> RemoveJsPackages(m, isGlobal, pkgs, run).err == JsPackage.Remove(m, isGlobal, pkgs, run).err
    ensures m == Yarn ==> RemoveJsPackages(m, isGlobal, pkgs, run).err.None?
    ensures m == Yarn ==>
      (JsPackage.Remove(m, isGlobal, pkgs, run).err.Some? <==> !run(RemoveJsPackages(m, isGlobal, pkgs, run).cmd).Succeeded?)
  {
    ArgvInjective(RemoveJsPackages(m, isGlobal, pkgs, run).cmd, JsPackage.Remove(m, isGlobal, pkgs, run).cmd);
  }

  /** Two commands with the same argument vector are the same command. */
  lemma ArgvInjective(a: Cmd, b: Cmd)
    requires Argv(a) == Argv(b)
    ensures a == b
  {
    assert a.name == Argv(a)[0] && b.name == Argv(b)[0];
    assert a.args == Argv(a)[1..] && b.args == Argv(b)[1..];
  }
}
