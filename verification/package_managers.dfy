/** What the step's four package-manager helpers share: which manager a project uses
    (decided by `yarn.lock`), which verb each manager calls add and remove, and where
    each manager puts its scope flag. npm writes `npm <verb> [-g] <pkg...>`; yarn writes
    `yarn [global] <verb> <pkg...>`. */
module PackageManagers {
  import opened Results
  import opened Paths

  /** A package manager. The Go types are string (or int) types, so a value other than
      npm and yarn can be passed; `Other` stands for it. */
  datatype Tool = Npm | Yarn | Other(name: string)

  /** Whether an operation targets the project's packages or the machine-wide ones. */
  datatype Scope = Local | Global

  /** The two package operations (`managerCommand`). */
  datatype Operation = AddPackages | RemovePackages

  const LockFileName := "yarn.lock"

  function ScopeOf(isGlobal: bool): (s: Scope)
    ensures s == Global <==> isGlobal
  {
    if isGlobal then Global else Local
  }

  /** Lock-file detection shared by `DetectTool`, `DetectManager` and
      `detectJsPackageManager`: yarn exactly when the existence check of
      `<dir>/yarn.lock` succeeds and finds it; npm when it is missing or the check fails. */
  function DetectFromLockFile(fileSystem: string -> PathCheck, dir: string): (t: Tool)
    ensures t == Yarn <==> CheckPath(fileSystem, Join(dir, LockFileName)) == Exists
    ensures t != Yarn ==> t == Npm
  {
    match CheckPath(fileSystem, Join(dir, LockFileName))
    case CheckFailed(_) => Npm
    case Exists => Yarn
    case Missing => Npm
  }

  /** `toolCommandBuilder`: removing is "remove" for every manager; adding is "install"
      for npm and "add" for any other manager. */
  function VerbFor(t: Tool, op: Operation): (verb: string)
    ensures op == RemovePackages ==> verb == "remove"
    ensures op == AddPackages ==> (verb == "install" <==> t == Npm)
    ensures op == AddPackages && t != Npm ==> verb == "add"
    ensures verb != "global" && verb != "-g"
  {
    if op == RemovePackages then "remove"
    else if t == Npm then "install"
    else "add"
  }

  /** The argument vector a manager is invoked with, program first. A manager other than
      npm and yarn gets no tokens at all. The scope flag sits after the verb for npm and
      before it for yarn; the packages come last, unchanged and in order. */
  function ManagerArgv(t: Tool, verb: string, scope: Scope, pkgs: seq<string>): (argv: seq<string>)
    ensures argv == [] <==> t.Other?
    ensures !t.Other? ==> |argv| == 2 + (if scope == Global then 1 else 0) + |pkgs|
    ensures !t.Other? ==> argv[|argv| - |pkgs|..] == pkgs
    ensures t == Npm ==> argv[0] == "npm" && argv[1] == verb && (scope == Global ==> argv[2] == "-g")
    ensures t == Yarn && scope == Global ==> argv[..3] == ["yarn", "global", verb]
    ensures t == Yarn && scope == Local ==> argv[..2] == ["yarn", verb]
  {
    match t
    case Npm => ["npm", verb] + (if scope == Global then ["-g"] else []) + pkgs
    case Yarn => ["yarn"] + (if scope == Global then ["global"] else []) + [verb] + pkgs
    case Other(_) => []
  }

  /** One manager invocation read back from its argument vector. */
  datatype Invocation = Invocation(tool: Tool, verb: string, scope: Scope, pkgs: seq<string>)

  /** Reads an argument vector back into manager, verb, scope and packages: npm's scope
      is the "-g" after the verb, yarn's the "global" before it. */
  function DecodeManagerArgv(argv: seq<string>): Option<Invocation>
  {
    if |argv| >= 2 && argv[0] == "npm" then
      if |argv| >= 3 && argv[2] == "-g" then Some(Invocation(Npm, argv[1], Global, argv[3..]))
      else Some(Invocation(Npm, argv[1], Local, argv[2..]))
    else if |argv| >= 3 && argv[0] == "yarn" && argv[1] == "global" then
      Some(Invocation(Yarn, argv[2], Global, argv[3..]))
    else if |argv| >= 2 && argv[0] == "yarn" then
      Some(Invocation(Yarn, argv[1], Local, argv[2..]))
    else None
  }

  /** The layout loses nothing: the manager, verb, scope and packages can be read back
      from the argument vector, provided the verb is not yarn's scope word and a local npm
      package list does not itself start with npm's scope flag. */
  lemma ManagerArgvRoundTrip(t: Tool, verb: string, scope: Scope, pkgs: seq<string>)
    requires !t.Other?
    requires verb != "global"
    requires t == Npm && scope == Local && pkgs != [] ==> pkgs[0] != "-g"
    ensures DecodeManagerArgv(ManagerArgv(t, verb, scope, pkgs)) == Some(Invocation(t, verb, scope, pkgs))
  {
    var argv := ManagerArgv(t, verb, scope, pkgs);
    var k := |argv| - |pkgs|;
    assert argv[k..] == pkgs;
  }
}
