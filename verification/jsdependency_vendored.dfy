/** The vendored copy of the jsdependency package
    (vendor/github.com/bitrise-community/steps-ionic-archive/jsdependency/jspackage.go).
    It is the same builder under other names (`createManagerCmd`, `RemoveCommand`,
    `AddCommand`, `InstallGlobalDependencyCommand`), so it reuses the definitions of
    `JsDependency`; only `DetectTool` differs, returning the check failure instead of
    logging it. */
module VendoredJsDependency {
  import opened Results
  import opened Paths
  import opened Commands
  import opened PackageManagers
  import JsDependency

  /** `DetectTool`: (yarn, no error) when yarn.lock exists, (npm, no error) when it is
      missing, and (npm, the wrapped check error) when the check fails. */
  function DetectTool(fileSystem: string -> PathCheck, dir: string): (r: (Tool, Option<string>))
    ensures r.0 == Yarn <==> CheckPath(fileSystem, Join(dir, "yarn.lock")) == Exists
    ensures r.0 != Yarn ==> r.0 == Npm
    ensures r.1.Some? <==> CheckPath(fileSystem, Join(dir, "yarn.lock")).CheckFailed?
    ensures r.1.Some? ==>
      r.1.value == "Failed to check if yarn.lock file exists in the workdir: " + CheckPath(fileSystem, Join(dir, "yarn.lock")).reason
  {
    match CheckPath(fileSystem, Join(dir, LockFileName))
    case CheckFailed(reason) => (Npm, Some("Failed to check if yarn.lock file exists in the workdir: " + reason))
    case Exists => (Yarn, None)
    case Missing => (Npm, None)
  }

  /** The vendored detection picks the same manager as the top-level one; it only adds
      the error. */
  lemma DetectToolAgrees(fileSystem: string -> PathCheck, dir: string)
    ensures DetectTool(fileSystem, dir).0 == JsDependency.DetectTool(fileSystem, dir)
  {
  }

  /** `createManagerCmd`: the argument vector of the manager, or the creation error for a
      manager other than npm and yarn. */
  function CreateManagerCmd(t: Tool, verb: string, scope: Scope, pkgs: seq<string>): (r: Result<Cmd>)
    ensures r.Ok? <==> !t.Other?
    ensures r.Ok? ==> Argv(r.value) == ManagerArgv(t, verb, scope, pkgs)
  {
    JsDependency.RunManagerCmd(t, verb, scope, pkgs)
  }

  /** `RemoveCommand`: a removal of exactly these packages by this manager in this scope. */
  function RemoveCommand(t: Tool, scope: Scope, pkgs: seq<string>): (r: Result<Cmd>)
    ensures r.Ok? <==> !t.Other?
    ensures r.Ok? ==> Argv(r.value) == ManagerArgv(t, "remove", scope, pkgs)
    ensures r.Ok? && (scope == Global || t == Yarn || pkgs == [] || pkgs[0] != "-g") ==>
      DecodeManagerArgv(Argv(r.value)) == Some(Invocation(t, "remove", scope, pkgs))
  {
    JsDependency.Remove(t, scope, pkgs)
  }

  /** `AddCommand`: an install of exactly these packages ("install" for npm, "add"
      otherwise). */
  function AddCommand(t: Tool, scope: Scope, pkgs: seq<string>): (r: Result<Cmd>)
    ensures r.Ok? <==> !t.Other?
    ensures r.Ok? ==> Argv(r.value) == ManagerArgv(t, if t == Npm then "install" else "add", scope, pkgs)
    ensures r.Ok? && (scope == Global || t == Yarn || pkgs == [] || pkgs[0] != "-g") ==>
      DecodeManagerArgv(Argv(r.value)) == Some(Invocation(t, if t == Npm then "install" else "add", scope, pkgs))
  {
    JsDependency.Add(t, scope, pkgs)
  }

  /** `RemoveCommand` and `AddCommand` build the same vector except for the verb. */
  lemma RemoveAndAddCommandDifferOnlyInVerb(t: Tool, scope: Scope, pkgs: seq<string>)
    requires !t.Other?
    ensures var rm, add := Argv(RemoveCommand(t, scope, pkgs).value), Argv(AddCommand(t, scope, pkgs).value);
      exists v :: 0 < v < |rm| && |rm| == |add| && rm[..v] == add[..v] && rm[v + 1..] == add[v + 1..]
        && rm[v] == "remove" && add[v] != "remove"
  {
    JsDependency.RemoveAndAddDifferOnlyInVerb(t, scope, pkgs);
    var v := if t == Npm then 1 else if scope == Global then 2 else 1;
    assert 0 < v < |Argv(RemoveCommand(t, scope, pkgs).value)|;
  }

  /** `InstallGlobalDependencyCommand`: exactly two commands, the local removal of the
      dependency and then the global add of `<dependency>@<version>`, with no `--force`
      token; an unnamed dependency is an error. */
  function InstallGlobalDependencyCommand(t: Tool, dependency: string, version: string): (r: Result<seq<Cmd>>)
    ensures dependency == "" ==> r == Err("Dependency name unspecified")
    ensures r.Ok? <==> dependency != "" && !t.Other?
    ensures r.Ok? ==> |r.value| == 2
    ensures r.Ok? ==> Argv(r.value[0]) == ManagerArgv(t, "remove", Local, [dependency])
    ensures r.Ok? ==> Argv(r.value[1]) == ManagerArgv(t, VerbFor(t, AddPackages), Global, [dependency + "@" + version])
    ensures r.Ok? && dependency != "--force" ==> forall i :: 0 <= i < |r.value| ==> "--force" !in r.value[i].args
  {
    var r := JsDependency.InstallGlobalDependency(t, dependency, version);
    if r.Ok? && dependency != "--force" then
      GlobalInstallHasNoForce(t, dependency, version);
      r
    else r
  }

  lemma GlobalInstallHasNoForce(t: Tool, dependency: string, version: string)
    requires JsDependency.InstallGlobalDependency(t, dependency, version).Ok? && dependency != "--force"
    ensures var cmds := JsDependency.InstallGlobalDependency(t, dependency, version).value;
      forall i :: 0 <= i < |cmds| ==> "--force" !in cmds[i].args
  {
    var cmds := JsDependency.InstallGlobalDependency(t, dependency, version).value;
    var pinned := dependency + "@" + version;
    assert pinned[|dependency|] == '@';
    NoForceToken(t, "remove", Local, [dependency]);
    NoForceToken(t, VerbFor(t, AddPackages), Global, [pinned]);
    assert cmds[0].args == Argv(cmds[0])[1..];
    assert cmds[1].args == Argv(cmds[1])[1..];
  }

  /** No token after the program name is `--force` unless the verb or a package is. */
  lemma NoForceToken(t: Tool, verb: string, scope: Scope, pkgs: seq<string>)
    requires !t.Other? && verb != "--force" && "--force" !in pkgs
    ensures "--force" !in ManagerArgv(t, verb, scope, pkgs)[1..]
  {
    var tail := ManagerArgv(t, verb, scope, pkgs)[1..];
    if t == Npm {
      assert tail == [verb] + (if scope == Global then ["-g"] else []) + pkgs;
    } else {
      assert tail == (if scope == Global then ["global"] else []) + [verb] + pkgs;
    }
  }
}
