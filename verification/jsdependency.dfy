/** jsdependency/jspackage.go: package-manager detection and command construction.
    Although `Remove`, `Add` and `runManagerCmd` are documented as removing, installing
    and running, they only build `command.Model` values; nothing is executed here. */
module JsDependency {
  import opened Results
  import opened Paths
  import opened Commands
  import opened PackageManagers

  /** `DetectTool`: yarn iff `<dir>/yarn.lock` is found; npm when it is missing and also
      when the check fails (the failure is only logged). */
  function DetectTool(fileSystem: string -> PathCheck, dir: string): (t: Tool)
    ensures t == Yarn <==> CheckPath(fileSystem, Join(dir, "yarn.lock")) == Exists
    ensures t == Npm <==> CheckPath(fileSystem, Join(dir, "yarn.lock")) != Exists
  {
    DetectFromLockFile(fileSystem, dir)
  }

  /** `runManagerCmd`: the manager's argument vector handed to `command.NewFromSlice`. A
      manager other than npm and yarn leaves the vector empty, which the constructor
      refuses, so the result is an error. */
  function RunManagerCmd(t: Tool, verb: string, scope: Scope, pkgs: seq<string>): (r: Result<Cmd>)
    ensures r.Ok? <==> !t.Other?
    ensures r.Ok? ==> Argv(r.value) == ManagerArgv(t, verb, scope, pkgs)
    ensures r.Err? ==> r.error == "Command creation failed, error: no command provided"
  {
    CreationFailedText();
    match NewFromSlice(ManagerArgv(t, verb, scope, pkgs))
    case Ok(cmd) => Ok(cmd)
    case Err(e) => Err("Command creation failed, error: " + e)
  }

  lemma CreationFailedText()
    ensures "Command creation failed, error: " + "no command provided" == "Command creation failed, error: no command provided"
  {
  }

  /** `Remove`: the removal command of the packages in the given scope. Read back, it is
      a removal of exactly these packages by this manager in this scope. */
  function Remove(t: Tool, scope: Scope, pkgs: seq<string>): (r: Result<Cmd>)
    ensures r.Ok? <==> !t.Other?
    ensures r.Ok? ==> |Argv(r.value)| >= |pkgs| + 2 && Argv(r.value)[|Argv(r.value)| - |pkgs|..] == pkgs
    ensures r.Ok? && (scope == Global || t == Yarn || pkgs == [] || pkgs[0] != "-g") ==>
      DecodeManagerArgv(Argv(r.value)) == Some(Invocation(t, "remove", scope, pkgs))
  {
    var r := RunManagerCmd(t, VerbFor(t, RemovePackages), scope, pkgs);
    if r.Ok? && (scope == Global || t == Yarn || pkgs == [] || pkgs[0] != "-g") then
      ManagerArgvRoundTrip(t, "remove", scope, pkgs);
      r
    else r
  }

  /** `Add`: the install command of the packages in the given scope; npm's verb is
      "install", yarn's is "add". */
  function Add(t: Tool, scope: Scope, pkgs: seq<string>): (r: Result<Cmd>)
    ensures r.Ok? <==> !t.Other?
    ensures r.Ok? ==> |Argv(r.value)| >= |pkgs| + 2 && Argv(r.value)[|Argv(r.value)| - |pkgs|..] == pkgs
    ensures r.Ok? && (scope == Global || t == Yarn || pkgs == [] || pkgs[0] != "-g") ==>
      DecodeManagerArgv(Argv(r.value)) == Some(Invocation(t, if t == Npm then "install" else "add", scope, pkgs))
  {
    var r := RunManagerCmd(t, VerbFor(t, AddPackages), scope, pkgs);
    if r.Ok? && (scope == Global || t == Yarn || pkgs == [] || pkgs[0] != "-g") then
      ManagerArgvRoundTrip(t, VerbFor(t, AddPackages), scope, pkgs);
      r
    else r
  }

  /** The removal and the install command for the same packages and scope differ in the
      verb alone. */
  lemma RemoveAndAddDifferOnlyInVerb(t: Tool, scope: Scope, pkgs: seq<string>)
    requires !t.Other?
    ensures var rm, add := Argv(Remove(t, scope, pkgs).value), Argv(Add(t, scope, pkgs).value);
      var v := if t == Npm then 1 else if scope == Global then 2 else 1;
      |rm| == |add| && rm[..v] == add[..v] && rm[v + 1..] == add[v + 1..]
      && rm[v] == "remove" && add[v] == (if t == Npm then "install" else "add")
  {
  }

  /** `InstallGlobalDependency`: to pin a global tool, first remove it from the project,
      then add `<dependency>@<version>` globally. An unnamed dependency is an error and
      no command is built; so is a manager other than npm and yarn. */
  function InstallGlobalDependency(t: Tool, dependency: string, version: string): (r: Result<seq<Cmd>>)
    ensures dependency == "" ==> r == Err("Dependency name unspecified")
    ensures r.Ok? <==> dependency != "" && !t.Other?
    ensures r.Ok? ==> |r.value| == 2
    ensures r.Ok? ==> r.value[0] == Remove(t, Local, [dependency]).value
    ensures r.Ok? ==> r.value[1] == Add(t, Global, [dependency + "@" + version]).value
    ensures r.Ok? && dependency != "-g" ==>
      DecodeManagerArgv(Argv(r.value[0])) == Some(Invocation(t, "remove", Local, [dependency]))
    ensures r.Ok? ==>
      DecodeManagerArgv(Argv(r.value[1])) == Some(Invocation(t, VerbFor(t, AddPackages), Global, [dependency + "@" + version]))
  {
    if dependency == "" then Err("Dependency name unspecified")
    else
      var removal := Remove(t, Local, [dependency]);
      if removal.Err? then Err(removal.error)
      else Ok([removal.value, Add(t, Global, [dependency + "@" + version]).value])
  }
}
