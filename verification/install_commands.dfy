/** The later revision of `InstallGlobalDependencyCommand` that the test table of
    jsdependency/jspackage_test.go describes: each step carries an "ignore error" flag,
    yarn additionally removes the other name of the Ionic CLI from the global packages
    before adding the requested one, and npm passes `--force`. Its body belongs to
    another revision of the repository; this definition is an assumed rule, consistent
    with every row of the table, and the rows are proved as lemmas below. */
module InstallCommands {
  import opened Results
  import opened Commands
  import opened PackageManagers

  /** One step of a pin sequence: a command and whether its failure may be ignored. */
  datatype InstallCommand = InstallCommand(slice: Cmd, ignoreError: bool)

  const LegacyIonicPackage := "ionic"
  const ScopedIonicPackage := "@ionic/cli"

  /** The other published name of the Ionic CLI, if the dependency is one of them. */
  function IonicAlias(dependency: string): (alias: Option<string>)
    ensures alias.Some? <==> dependency in {LegacyIonicPackage, ScopedIonicPackage}
    ensures alias.Some? ==> alias.value in {LegacyIonicPackage, ScopedIonicPackage} && alias.value != dependency
  {
    if dependency == LegacyIonicPackage then Some(ScopedIonicPackage)
    else if dependency == ScopedIonicPackage then Some(LegacyIonicPackage)
    else None
  }

  /** The command for one manager operation; npm's commands end in `--force`. */
  function Step(t: Tool, op: Operation, scope: Scope, pkg: string): (c: Cmd)
    requires !t.Other?
    ensures Argv(c) == ManagerArgv(t, VerbFor(t, op), scope, [pkg]) + (if t == Npm then ["--force"] else [])
  {
    var argv := ManagerArgv(t, VerbFor(t, op), scope, [pkg]) + (if t == Npm then ["--force"] else []);
    Cmd(argv[0], argv[1..])
  }

  /** The pin sequence: remove the dependency locally (ignorable with yarn, which fails
      on a package that was never added), with yarn also remove the other Ionic CLI name
      globally (ignorable), then add `<dependency>@<version>` globally (never ignorable). */
  function InstallGlobalDependencyCommand(t: Tool, dependency: string, version: string): (r: Result<seq<InstallCommand>>)
    ensures dependency == "" ==> r == Err("Dependency name unspecified")
    ensures r.Ok? <==> dependency != "" && !t.Other?
    ensures r.Ok? ==> 2 <= |r.value| <= 3
    ensures r.Ok? ==> (|r.value| == 3 <==> t == Yarn && IonicAlias(dependency).Some?)
    ensures r.Ok? ==> r.value[0].slice == Step(t, RemovePackages, Local, dependency)
    ensures r.Ok? && |r.value| == 3 ==> r.value[1].slice == Step(Yarn, RemovePackages, Global, IonicAlias(dependency).value)
    ensures r.Ok? ==> r.value[|r.value| - 1] == InstallCommand(Step(t, AddPackages, Global, dependency + "@" + version), false)
    ensures r.Ok? ==> forall i :: 0 <= i < |r.value| - 1 ==> (r.value[i].ignoreError <==> t == Yarn)
  {
    if dependency == "" then Err("Dependency name unspecified")
    else if t.Other? then Err("Command creation failed, error: no command provided")
    else
      var removeLocal := InstallCommand(Step(t, RemovePackages, Local, dependency), t == Yarn);
      var swapAlias :=
        if t == Yarn && IonicAlias(dependency).Some?
        then [InstallCommand(Step(Yarn, RemovePackages, Global, IonicAlias(dependency).value), true)]
        else [];
      var addGlobal := InstallCommand(Step(t, AddPackages, Global, dependency + "@" + version), false);
      Ok([removeLocal] + swapAlias + [addGlobal])
  }

  /** Any removal in a pin sequence precedes the global add, and the add installs the
      requested version of the requested dependency. */
  lemma PinSequenceEndsWithTheAdd(t: Tool, dependency: string, version: string)
    requires dependency != "" && !t.Other?
    ensures var steps := InstallGlobalDependencyCommand(t, dependency, version).value;
      && DecodeManagerArgv(Argv(steps[|steps| - 1].slice)).Some?
      && DecodeManagerArgv(Argv(steps[|steps| - 1].slice)).value.scope == Global
      && DecodeManagerArgv(Argv(steps[|steps| - 1].slice)).value.pkgs[0] == dependency + "@" + version
      && forall i :: 0 <= i < |steps| - 1 ==> Argv(steps[i].slice)[if t == Yarn && i == 0 then 1 else if t == Yarn then 2 else 1] == "remove"
  {
    var steps := InstallGlobalDependencyCommand(t, dependency, version).value;
    var last := Argv(steps[|steps| - 1].slice);
    assert last == ManagerArgv(t, VerbFor(t, AddPackages), Global, [dependency + "@" + version]) + (if t == Npm then ["--force"] else []);
  }

  lemma YarnIonicLatest()
    ensures InstallGlobalDependencyCommand(Yarn, "ionic", "latest") == Ok([
      InstallCommand(Cmd("yarn", ["remove", "ionic"]), true),
      InstallCommand(Cmd("yarn", ["global", "remove", "@ionic/cli"]), true),
      InstallCommand(Cmd("yarn", ["global", "add", "ionic@latest"]), false)])
  {
    assert "ionic" + "@" + "latest" == "ionic@latest";
    assert IonicAlias("ionic") == Some("@ionic/cli");
    assert Step(Yarn, RemovePackages, Local, "ionic") == Cmd("yarn", ["remove", "ionic"]);
    assert Step(Yarn, RemovePackages, Global, "@ionic/cli") == Cmd("yarn", ["global", "remove", "@ionic/cli"]);
    assert Step(Yarn, AddPackages, Global, "ionic@latest") == Cmd("yarn", ["global", "add", "ionic@latest"]);
    var r := InstallGlobalDependencyCommand(Yarn, "ionic", "latest");
    assert r.value[0] == InstallCommand(Cmd("yarn", ["remove", "ionic"]), true);
    assert r.value[1] == InstallCommand(Cmd("yarn", ["global", "remove", "@ionic/cli"]), true);
    assert r.value[2] == InstallCommand(Cmd("yarn", ["global", "add", "ionic@latest"]), false);
    assert r.value == [InstallCommand(Cmd("yarn", ["remove", "ionic"]), true), InstallCommand(Cmd("yarn", ["global", "remove", "@ionic/cli"]), true), InstallCommand(Cmd("yarn", ["global", "add", "ionic@latest"]), false)];
  }

  lemma YarnScopedIonicLatest()
    ensures InstallGlobalDependencyCommand(Yarn, "@ionic/cli", "latest") == Ok([
      InstallCommand(Cmd("yarn", ["remove", "@ionic/cli"]), true),
      InstallCommand(Cmd("yarn", ["global", "remove", "ionic"]), true),
      InstallCommand(Cmd("yarn", ["global", "add", "@ionic/cli@latest"]), false)])
  {
    assert "@ionic/cli" + "@" + "latest" == "@ionic/cli@latest";
    assert IonicAlias("@ionic/cli") == Some("ionic");
    assert Step(Yarn, RemovePackages, Local, "@ionic/cli") == Cmd("yarn", ["remove", "@ionic/cli"]);
    assert Step(Yarn, RemovePackages, Global, "ionic") == Cmd("yarn", ["global", "remove", "ionic"]);
    assert Step(Yarn, AddPackages, Global, "@ionic/cli@latest") == Cmd("yarn", ["global", "add", "@ionic/cli@latest"]);
    var r := InstallGlobalDependencyCommand(Yarn, "@ionic/cli", "latest");
    assert r.value[0] == InstallCommand(Cmd("yarn", ["remove", "@ionic/cli"]), true);
    assert r.value[1] == InstallCommand(Cmd("yarn", ["global", "remove", "ionic"]), true);
    assert r.value[2] == InstallCommand(Cmd("yarn", ["global", "add", "@ionic/cli@latest"]), false);
    assert r.value == [InstallCommand(Cmd("yarn", ["remove", "@ionic/cli"]), true), InstallCommand(Cmd("yarn", ["global", "remove", "ionic"]), true), InstallCommand(Cmd("yarn", ["global", "add", "@ionic/cli@latest"]), false)];
  }

  lemma YarnCordovaLatest()
    ensures InstallGlobalDependencyCommand(Yarn, "cordova", "latest") == Ok([
      InstallCommand(Cmd("yarn", ["remove", "cordova"]), true),
      InstallCommand(Cmd("yarn", ["global", "add", "cordova@latest"]), false)])
  {
    assert "cordova" + "@" + "latest" == "cordova@latest";
    assert IonicAlias("cordova") == None;
    assert Step(Yarn, RemovePackages, Local, "cordova") == Cmd("yarn", ["remove", "cordova"]);
    assert Step(Yarn, AddPackages, Global, "cordova@latest") == Cmd("yarn", ["global", "add", "cordova@latest"]);
    var r := InstallGlobalDependencyCommand(Yarn, "cordova", "latest");
    assert r.value[0] == InstallCommand(Cmd("yarn", ["remove", "cordova"]), true);
    assert r.value[1] == InstallCommand(Cmd("yarn", ["global", "add", "cordova@latest"]), false);
    assert r.value == [InstallCommand(Cmd("yarn", ["remove", "cordova"]), true), InstallCommand(Cmd("yarn", ["global", "add", "cordova@latest"]), false)];
  }

  lemma NpmScopedIonicLatest()
    ensures InstallGlobalDependencyCommand(Npm, "@ionic/cli", "latest") == Ok([
      InstallCommand(Cmd("npm", ["remove", "@ionic/cli", "--force"]), false),
      InstallCommand(Cmd("npm", ["install", "-g", "@ionic/cli@latest", "--force"]), false)])
  {
    assert "@ionic/cli" + "@" + "latest" == "@ionic/cli@latest";
    assert Step(Npm, RemovePackages, Local, "@ionic/cli") == Cmd("npm", ["remove", "@ionic/cli", "--force"]);
    assert Step(Npm, AddPackages, Global, "@ionic/cli@latest") == Cmd("npm", ["install", "-g", "@ionic/cli@latest", "--force"]);
    var r := InstallGlobalDependencyCommand(Npm, "@ionic/cli", "latest");
    assert r.value[0] == InstallCommand(Cmd("npm", ["remove", "@ionic/cli", "--force"]), false);
    assert r.value[1] == InstallCommand(Cmd("npm", ["install", "-g", "@ionic/cli@latest", "--force"]), false);
    assert r.value == [InstallCommand(Cmd("npm", ["remove", "@ionic/cli", "--force"]), false), InstallCommand(Cmd("npm", ["install", "-g", "@ionic/cli@latest", "--force"]), false)];
  }
}
