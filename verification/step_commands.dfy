/** The command lines main.go assembles itself (main.go:321-445): the platform list, the
    `platform rm` / `platform add` / `prepare` phase and one `build` per platform. */
module StepCommands {
  import opened Text
  import opened StringSort
  import opened Commands
  import Ionic

  /** The step's inputs (`config`); every field is a string. */
  datatype Config = Config(
    platform: string,
    configuration: string,
    target: string,
    buildConfig: string,
    options: string,
    username: string,
    password: string,
    addPlatform: string,
    reAddPlatform: string,
    ionicVersion: string,
    cordovaVersion: string,
    cordovaIosVersion: string,
    cordovaAndroidVersion: string,
    workDir: string,
    deployDir: string)

  /** What reflection's `String()` gives for a field that does not exist. */
  const InvalidValue := "<invalid Value>"

  /** The Go names of the fifteen `config` fields. */
  const FieldNames: set<string> := {
    "Platform", "Configuration", "Target", "BuildConfig", "Options", "Username", "Password",
    "AddPlatform", "ReAddPlatform", "IonicVersion", "CordovaVersion", "CordovaIosVersion",
    "CordovaAndroidVersion", "WorkDir", "DeployDir"}

  /** `getField`: the config field with the given Go name, by an explicit table instead
      of reflection; any other name reads as an invalid reflect value. */
  function GetField(c: Config, field: string): (v: string)
    ensures field == "Platform" ==> v == c.platform
    ensures field == "Configuration" ==> v == c.configuration
    ensures field == "Target" ==> v == c.target
    ensures field == "BuildConfig" ==> v == c.buildConfig
    ensures field == "Options" ==> v == c.options
    ensures field == "Username" ==> v == c.username
    ensures field == "Password" ==> v == c.password
    ensures field == "AddPlatform" ==> v == c.addPlatform
    ensures field == "ReAddPlatform" ==> v == c.reAddPlatform
    ensures field == "IonicVersion" ==> v == c.ionicVersion
    ensures field == "CordovaVersion" ==> v == c.cordovaVersion
    ensures field == "CordovaIosVersion" ==> v == c.cordovaIosVersion
    ensures field == "CordovaAndroidVersion" ==> v == c.cordovaAndroidVersion
    ensures field == "WorkDir" ==> v == c.workDir
    ensures field == "DeployDir" ==> v == c.deployDir
    ensures field !in FieldNames ==> v == InvalidValue
  {
    match field
    case "Platform" => c.platform
    case "Configuration" => c.configuration
    case "Target" => c.target
    case "BuildConfig" => c.buildConfig
    case "Options" => c.options
    case "Username" => c.username
    case "Password" => c.password
    case "AddPlatform" => c.addPlatform
    case "ReAddPlatform" => c.reAddPlatform
    case "IonicVersion" => c.ionicVersion
    case "CordovaVersion" => c.cordovaVersion
    case "CordovaIosVersion" => c.cordovaIosVersion
    case "CordovaAndroidVersion" => c.cordovaAndroidVersion
    case "WorkDir" => c.workDir
    case "DeployDir" => c.deployDir
    case _ => InvalidValue
  }

  /** The table reaches every field: two configs that agree on every name are equal. */
  lemma FieldTableIsComplete(c: Config, d: Config)
    requires forall f :: f in FieldNames ==> GetField(c, f) == GetField(d, f)
    ensures c == d
  {
  }

  // ---------------------------------------------------------------------------
  // The platform list

  function TrimAll(parts: seq<string>): (r: seq<string>)
    ensures |r| == |parts|
    ensures forall i :: 0 <= i < |parts| ==> r[i] == TrimSpace(parts[i])
  {
    seq(|parts|, i requires 0 <= i < |parts| => TrimSpace(parts[i]))
  }

  /** The `platform` input split on commas, each piece trimmed, sorted ascending. */
  function ParsePlatforms(platform: string): (ps: seq<string>)
    ensures Sorted(ps)
    ensures multiset(ps) == multiset(TrimAll(Split(platform, ',')))
  {
    Sort(TrimAll(Split(platform, ',')))
  }

  /** The parsed list is the one sorted arrangement of the trimmed pieces: any sorted
      sequence holding exactly those pieces is it. */
  lemma ParsePlatformsIsTheSortedPieces(platform: string, ps: seq<string>)
    requires Sorted(ps) && multiset(ps) == multiset(TrimAll(Split(platform, ',')))
    ensures ParsePlatforms(platform) == ps
  {
    SortedPermutationUnique(ParsePlatforms(platform), ps);
  }

  /** The default `platform` input builds android first, then ios. */
  lemma BothPlatforms()
    ensures ParsePlatforms("ios,android") == ["android", "ios"]
  {
    SplitBothPlatforms();
    TrimmedBothPlatforms();
    AndroidSortsFirst();
    SameNames();
    ParsePlatformsIsTheSortedPieces("ios,android", ["android", "ios"]);
  }

  lemma TrimmedBothPlatforms()
    ensures TrimAll(["ios", "android"]) == ["ios", "android"]
  {
    TrimmedPlatformNames();
  }

  lemma SameNames()
    ensures multiset(["android", "ios"]) == multiset(["ios", "android"])
  {
  }

  lemma SplitBothPlatforms()
    ensures Split("ios,android", ',') == ["ios", "android"]
  {
    var parts: seq<string> := ["ios", "android"];
    assert ',' !in parts[0] && ',' !in parts[1];
    BothPlatformsJoined();
    SplitOfJoin(parts, ',');
  }

  lemma BothPlatformsJoined()
    ensures JoinWith(["ios", "android"], ",") == "ios,android"
  {
    var parts: seq<string> := ["ios", "android"];
    assert parts[1..] == ["android"];
    assert JoinWith(parts, ",") == "ios" + "," + JoinWith(["android"], ",");
  }

  lemma AndroidSortsFirst()
    ensures Sorted(["android", "ios"])
  {
    assert "android"[0] < "ios"[0];
    assert LexLe("android", "ios");
  }

  lemma TrimmedPlatformNames()
    ensures TrimSpace("ios") == "ios" && TrimSpace("android") == "android"
  {
    TrimSpaceOfUnpadded("ios");
    TrimSpaceOfUnpadded("android");
  }

  // ---------------------------------------------------------------------------
  // platform rm / platform add / prepare

  /** `ionic [cordova] platform rm <p>`: the builder's platform command for one platform. */
  function RemoveArgv(major: int, p: string): (argv: seq<string>)
    ensures argv == Argv(Ionic.PlatformCommand(Ionic.SetPlatforms(Ionic.New(major), [p]), "rm"))
  {
    Ionic.Prefix(major) + ["platform", "rm", p]
  }

  const GitUrlPrefix := "https://github.com/apache/cordova-"
  const GitUrlSuffix := ".git"

  /** The platform named in `platform add`: "master" asks for the platform's git
      repository, another non-empty version pins `<p>@<version>`, and no version leaves
      the bare platform name. */
  function PlatformAddToken(p: string, version: string): (token: string)
    ensures version == "master" ==> token == GitUrlPrefix + p + GitUrlSuffix
    ensures version != "master" && version != "" ==> token == p + "@" + version
    ensures version == "" ==> token == p
  {
    if version == "master" then GitUrlPrefix + p + GitUrlSuffix
    else if version != "" then p + "@" + version
    else p
  }

  /** Different versions give different tokens, so the version can be read back from the
      token, for platform names without `@`. */
  lemma PlatformAddTokenInjective(p: string, v1: string, v2: string)
    requires '@' !in p
    requires PlatformAddToken(p, v1) == PlatformAddToken(p, v2)
    ensures v1 == v2
  {
    var url := GitUrlPrefix + p + GitUrlSuffix;
    assert '@' !in url by {
      assert url == GitUrlPrefix + p + GitUrlSuffix;
      assert '@' !in GitUrlPrefix && '@' !in GitUrlSuffix;
    }
    if v1 != "master" && v1 != "" {
      assert (p + "@" + v1)[|p|] == '@';
      assert (p + "@" + v1)[|p| + 1..] == v1;
      if v2 != "master" && v2 != "" {
        assert (p + "@" + v2)[|p| + 1..] == v2;
      }
    }
    if v2 != "master" && v2 != "" {
      assert (p + "@" + v2)[|p|] == '@';
    }
  }

  /** The version configured for a platform: the `Cordova<Title(p)>Version` field. An
      empty platform name reads the cordova version itself. */
  function PlatformVersion(c: Config, p: string): (v: string)
    ensures p == "ios" ==> v == c.cordovaIosVersion
    ensures p == "android" ==> v == c.cordovaAndroidVersion
    ensures p == "" ==> v == c.cordovaVersion
  {
    IosVersionFieldName();
    AndroidVersionFieldName();
    assert "Cordova" + Title("") + "Version" == "CordovaVersion";
    GetField(c, "Cordova" + Title(p) + "Version")
  }

  lemma IosVersionFieldName()
    ensures "Cordova" + Title("ios") + "Version" == "CordovaIosVersion"
  {
    var t := Title("ios");
    assert t[0] == 'I' && t[1] == 'o' && t[2] == 's';
    assert t == "Ios";
  }

  lemma AndroidVersionFieldName()
    ensures "Cordova" + Title("android") + "Version" == "CordovaAndroidVersion"
  {
    var t := Title("android");
    assert t[0] == 'A' && t[1] == 'n' && t[2] == 'd' && t[3] == 'r' && t[4] == 'o' && t[5] == 'i' && t[6] == 'd';
    assert t == "Android";
  }

  /** `ionic [cordova] platform add <token>`. */
  function AddArgv(major: int, c: Config, p: string): (argv: seq<string>)
    ensures argv == Argv(Ionic.PlatformCommand(Ionic.SetPlatforms(Ionic.New(major), [PlatformAddToken(p, PlatformVersion(c, p))]), "add"))
  {
    Ionic.Prefix(major) + ["platform", "add", PlatformAddToken(p, PlatformVersion(c, p))]
  }

  /** `ionic [cordova] prepare --no-build`. */
  function PrepareArgv(major: int): (argv: seq<string>)
    ensures |argv| == |Ionic.Prefix(major)| + 2
    ensures argv[..|Ionic.Prefix(major)|] == Ionic.Prefix(major)
    ensures argv[|argv| - 2..] == ["prepare", "--no-build"]
  {
    var argv := Ionic.Prefix(major) + ["prepare", "--no-build"];
    assert argv[..|Ionic.Prefix(major)|] == Ionic.Prefix(major);
    argv
  }

  /** The builder that describes one platform's build. */
  function BuilderFor(major: int, c: Config, p: string): Ionic.Model {
    Ionic.Model(major, [p], c.configuration, c.target, c.buildConfig, [])
  }

  /** The build command of one platform: the builder's build command for that platform,
      followed by the user's options verbatim. */
  function BuildArgv(major: int, c: Config, p: string, options: seq<string>): (argv: seq<string>)
    ensures argv == Argv(Ionic.BuildCommand(BuilderFor(major, c, p))) + options
  {
    var argv := Ionic.Prefix(major) + ["build"] + Ionic.BuildArgs(c.configuration, c.target, [p], c.buildConfig) + options;
    var b := Argv(Ionic.BuildCommand(BuilderFor(major, c, p)));
    var n := |Ionic.Prefix(major)|;
    assert b == b[..n] + [b[n]] + b[n + 1..];
    argv
  }

  // ---------------------------------------------------------------------------
  // Phases

  /** The commands before the build: with `add_platform` on, a removal of every platform
      when `readd_platform` is on too, then an add of every platform; otherwise a single
      prepare. */
  function PlatformPhase(major: int, c: Config, platforms: seq<string>): (cmds: seq<seq<string>>)
    ensures c.addPlatform != "true" ==> cmds == [PrepareArgv(major)]
    ensures c.addPlatform == "true" ==>
      var removes := if c.reAddPlatform == "true" then |platforms| else 0;
      && |cmds| == removes + |platforms|
      && (forall i :: 0 <= i < removes ==> cmds[i] == RemoveArgv(major, platforms[i]))
      && (forall i :: 0 <= i < |platforms| ==> cmds[removes + i] == AddArgv(major, c, platforms[i]))
  {
    if c.addPlatform == "true" then
      (if c.reAddPlatform == "true" then seq(|platforms|, i requires 0 <= i < |platforms| => RemoveArgv(major, platforms[i])) else [])
      + seq(|platforms|, i requires 0 <= i < |platforms| => AddArgv(major, c, platforms[i]))
    else [PrepareArgv(major)]
  }

  /** One build command per platform, in the sorted platform order. */
  function BuildPhase(major: int, c: Config, platforms: seq<string>, options: seq<string>): (cmds: seq<seq<string>>)
    ensures |cmds| == |platforms|
    ensures forall i :: 0 <= i < |platforms| ==> cmds[i] == BuildArgv(major, c, platforms[i], options)
  {
    seq(|platforms|, i requires 0 <= i < |platforms| => BuildArgv(major, c, platforms[i], options))
  }
}
