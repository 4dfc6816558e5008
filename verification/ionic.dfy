/** ionic/ionic.go: a builder for the `ionic` CLI's `platform` and `build` commands.
    The Go setters mutate the builder and return it for chaining; here each setter
    returns the updated builder value. */
module Ionic {
  import opened Results
  import opened Commands

  datatype Model = Model(
    ionicMajorVersion: int,
    platforms: seq<string>,
    configuration: string,
    target: string,
    buildConfig: string,
    customOptions: seq<string>)

  /** `New`: a builder that knows only the CLI's major version. */
  function New(ionicMajorVersion: int): (b: Model)
    ensures b.ionicMajorVersion == ionicMajorVersion
    ensures b.platforms == [] && b.customOptions == []
    ensures b.configuration == "" && b.target == "" && b.buildConfig == ""
  {
    Model(ionicMajorVersion, [], "", "", "", [])
  }

  function SetPlatforms(b: Model, platforms: seq<string>): (r: Model)
    ensures r.platforms == platforms
    ensures r.ionicMajorVersion == b.ionicMajorVersion && r.configuration == b.configuration
    ensures r.target == b.target && r.buildConfig == b.buildConfig && r.customOptions == b.customOptions
  {
    b.(platforms := platforms)
  }

  function SetConfiguration(b: Model, configuration: string): (r: Model)
    ensures r.configuration == configuration
    ensures r.ionicMajorVersion == b.ionicMajorVersion && r.platforms == b.platforms
    ensures r.target == b.target && r.buildConfig == b.buildConfig && r.customOptions == b.customOptions
  {
    b.(configuration := configuration)
  }

  function SetTarget(b: Model, target: string): (r: Model)
    ensures r.target == target
    ensures r.ionicMajorVersion == b.ionicMajorVersion && r.platforms == b.platforms
    ensures r.configuration == b.configuration && r.buildConfig == b.buildConfig && r.customOptions == b.customOptions
  {
    b.(target := target)
  }

  function SetBuildConfig(b: Model, buildConfig: string): (r: Model)
    ensures r.buildConfig == buildConfig
    ensures r.ionicMajorVersion == b.ionicMajorVersion && r.platforms == b.platforms
    ensures r.configuration == b.configuration && r.target == b.target && r.customOptions == b.customOptions
  {
    b.(buildConfig := buildConfig)
  }

  function SetCustomOptions(b: Model, customOptions: seq<string>): (r: Model)
    ensures r.customOptions == customOptions
    ensures r.ionicMajorVersion == b.ionicMajorVersion && r.platforms == b.platforms
    ensures r.configuration == b.configuration && r.target == b.target && r.buildConfig == b.buildConfig
  {
    b.(customOptions := customOptions)
  }

  /** The leading tokens of every Ionic command: the program, then the `cordova`
      sub-command from Ionic CLI 3 on. */
  function Prefix(ionicMajorVersion: int): (p: seq<string>)
    ensures |p| == if ionicMajorVersion > 2 then 2 else 1
    ensures p[0] == "ionic"
    ensures ionicMajorVersion > 2 ==> p[1] == "cordova"
  {
    if ionicMajorVersion > 2 then ["ionic", "cordova"] else ["ionic"]
  }

  /** `PlatformCommand`: `ionic [cordova] platform <cmd> <platform...>`, the platforms in
      the order they were set. */
  function PlatformCommand(b: Model, cmd: string): (c: Cmd)
    ensures c.name == "ionic"
    ensures var argv, n := Argv(c), |Prefix(b.ionicMajorVersion)|;
      && |argv| == n + 2 + |b.platforms|
      && argv[..n] == Prefix(b.ionicMajorVersion)
      && argv[n] == "platform" && argv[n + 1] == cmd
      && argv[n + 2..] == b.platforms
  {
    var slice := Prefix(b.ionicMajorVersion) + ["platform", cmd] + b.platforms;
    assert slice[|Prefix(b.ionicMajorVersion)| + 2..] == b.platforms;
    FromSlice(slice)
  }

  /** What a `platform` command line says. */
  datatype PlatformRequest = PlatformRequest(modern: bool, cmd: string, platforms: seq<string>)

  function DecodePlatformCommand(argv: seq<string>): Option<PlatformRequest> {
    if |argv| >= 4 && argv[0] == "ionic" && argv[1] == "cordova" && argv[2] == "platform" then
      Some(PlatformRequest(true, argv[3], argv[4..]))
    else if |argv| >= 3 && argv[0] == "ionic" && argv[1] == "platform" then
      Some(PlatformRequest(false, argv[2], argv[3..]))
    else None
  }

  /** Nothing of the request is lost: whether the `cordova` sub-command is used, the
      platform sub-command and the platforms read back from the command line. */
  lemma PlatformCommandRoundTrip(b: Model, cmd: string)
    ensures DecodePlatformCommand(Argv(PlatformCommand(b, cmd)))
      == Some(PlatformRequest(b.ionicMajorVersion > 2, cmd, b.platforms))
  {
  }

  function FlagCount(s: string): nat {
    if s != "" then 1 else 0
  }

  /** The optional tokens of a build command. */
  function Optional(present: bool, tokens: seq<string>): seq<string> {
    if present then tokens else []
  }

  /** The arguments after `build`: the configuration and target flags when set, the
      platforms, and the build-config pair when set. */
  function BuildArgs(configuration: string, target: string, platforms: seq<string>, buildConfig: string): (args: seq<string>)
    ensures var k := FlagCount(configuration) + FlagCount(target);
      && |args| == k + |platforms| + 2 * FlagCount(buildConfig)
      && (configuration != "" ==> args[0] == "--" + configuration)
      && (target != "" ==> args[k - 1] == "--" + target)
      && args[k..k + |platforms|] == platforms
      && (buildConfig != "" ==> args[|args| - 2..] == ["--buildConfig", buildConfig])
  {
    var conf := Optional(configuration != "", ["--" + configuration]);
    var tgt := Optional(target != "", ["--" + target]);
    var bc := Optional(buildConfig != "", ["--buildConfig", buildConfig]);
    var args := conf + tgt + platforms + bc;
    assert args[|conf| + |tgt|..|conf| + |tgt| + |platforms|] == platforms;
    assert args[|args| - |bc|..] == bc;
    args
  }

  /** `BuildCommand`: `ionic [cordova] build [--<configuration>] [--<target>] <platform...>
      [--buildConfig <buildConfig>]`; empty settings leave their tokens out. */
  function BuildCommand(b: Model): (c: Cmd)
    ensures c.name == "ionic"
    ensures var argv, n := Argv(c), |Prefix(b.ionicMajorVersion)|;
      && |argv| > n
      && argv[..n] == Prefix(b.ionicMajorVersion)
      && argv[n] == "build"
      && argv[n + 1..] == BuildArgs(b.configuration, b.target, b.platforms, b.buildConfig)
  {
    var p := Prefix(b.ionicMajorVersion);
    var slice := p + ["build"] + BuildArgs(b.configuration, b.target, b.platforms, b.buildConfig);
    assert slice[|p| + 1..] == BuildArgs(b.configuration, b.target, b.platforms, b.buildConfig);
    FromSlice(slice)
  }

  /** The length of a build command: the prefix, `build`, one token per set flag, the
      platforms, and two tokens for a set build config. */
  lemma BuildCommandLength(b: Model)
    ensures |Argv(BuildCommand(b))| == |Prefix(b.ionicMajorVersion)| + 1 + FlagCount(b.configuration)
      + FlagCount(b.target) + |b.platforms| + 2 * FlagCount(b.buildConfig)
  {
    var argv := Argv(BuildCommand(b));
    var n := |Prefix(b.ionicMajorVersion)|;
    assert |argv| == n + 1 + |argv[n + 1..]|;
  }

  /** The custom options are stored but appear in neither command. */
  lemma CustomOptionsNeverUsed(b: Model, options: seq<string>, cmd: string)
    ensures BuildCommand(SetCustomOptions(b, options)) == BuildCommand(b)
    ensures PlatformCommand(SetCustomOptions(b, options), cmd) == PlatformCommand(b, cmd)
  {
  }

  const TargetNames: set<string> := {"device", "emulator"}

  predicate IsFlag(token: string) {
    |token| >= 2 && token[..2] == "--"
  }

  /** The name a flag token carries. */
  function FlagName(token: string): string
    requires IsFlag(token)
  {
    token[2..]
  }

  /** Settings whose build command can be read back: the target is one of Cordova's
      targets (or unset), the configuration is not a target name and not `buildConfig`,
      and no platform looks like a flag. */
  predicate Unambiguous(b: Model) {
    && (b.target == "" || b.target in TargetNames)
    && b.configuration !in TargetNames && b.configuration != "buildConfig"
    && forall i :: 0 <= i < |b.platforms| ==> !IsFlag(b.platforms[i])
  }

  /** What a `build` command line says. */
  datatype BuildRequest = BuildRequest(modern: bool, configuration: string, target: string, platforms: seq<string>, buildConfig: string)

  /** A leading flag that is not a target and not `--buildConfig` is the configuration. */
  function TakeConfiguration(args: seq<string>): (string, seq<string>) {
    if args != [] && IsFlag(args[0]) && args[0] != "--buildConfig" && FlagName(args[0]) !in TargetNames
    then (FlagName(args[0]), args[1..])
    else ("", args)
  }

  /** A leading flag naming a target is the target. */
  function TakeTarget(args: seq<string>): (string, seq<string>) {
    if args != [] && IsFlag(args[0]) && FlagName(args[0]) in TargetNames
    then (FlagName(args[0]), args[1..])
    else ("", args)
  }

  /** A trailing `--buildConfig <file>` pair is the build config; the rest are platforms. */
  function TakeBuildConfig(args: seq<string>): (string, seq<string>) {
    if |args| >= 2 && args[|args| - 2] == "--buildConfig"
    then (args[|args| - 1], args[..|args| - 2])
    else ("", args)
  }

  /** The settings read from the arguments after `build`. */
  function DecodeBuildArgs(args: seq<string>): (string, string, seq<string>, string) {
    var (conf, r2) := TakeConfiguration(args);
    var (target, r3) := TakeTarget(r2);
    var (buildConfig, platforms) := TakeBuildConfig(r3);
    (conf, target, platforms, buildConfig)
  }

  function DecodeBuildCommand(argv: seq<string>): Option<BuildRequest> {
    if |argv| < 2 || argv[0] != "ionic" then None
    else
      var modern := argv[1] == "cordova";
      var rest := if modern then argv[2..] else argv[1..];
      if rest == [] || rest[0] != "build" then None
      else
        var (conf, target, platforms, buildConfig) := DecodeBuildArgs(rest[1..]);
        Some(BuildRequest(modern, conf, target, platforms, buildConfig))
  }

  /** On unambiguous settings the build command determines the configuration, target,
      platforms and build config it was made from. */
  lemma BuildCommandRoundTrip(b: Model)
    requires Unambiguous(b)
    ensures DecodeBuildCommand(Argv(BuildCommand(b)))
      == Some(BuildRequest(b.ionicMajorVersion > 2, b.configuration, b.target, b.platforms, b.buildConfig))
  {
    BuildArgsRoundTrip(b.configuration, b.target, b.platforms, b.buildConfig);
    DecodePrefixed(Argv(BuildCommand(b)), b.ionicMajorVersion, BuildArgs(b.configuration, b.target, b.platforms, b.buildConfig));
  }

  /** Decoding a build command reads the prefix and hands the rest to the flag decoder. */
  lemma DecodePrefixed(argv: seq<string>, ionicMajorVersion: int, args: seq<string>)
    requires var n := |Prefix(ionicMajorVersion)|;
      |argv| > n && argv[..n] == Prefix(ionicMajorVersion) && argv[n] == "build" && argv[n + 1..] == args
    ensures DecodeBuildCommand(argv)
      == Some(BuildRequest(ionicMajorVersion > 2, DecodeBuildArgs(args).0, DecodeBuildArgs(args).1, DecodeBuildArgs(args).2, DecodeBuildArgs(args).3))
  {
    var n := |Prefix(ionicMajorVersion)|;
    assert argv[0] == argv[..n][0] == "ionic";
    if ionicMajorVersion > 2 {
      assert argv[1] == argv[..n][1] == "cordova";
      assert argv[2..][1..] == args;
    } else {
      assert argv[1] == "build";
      assert argv[1..][1..] == args;
    }
  }

  lemma BuildArgsRoundTrip(configuration: string, target: string, platforms: seq<string>, buildConfig: string)
    requires Unambiguous(Model(0, platforms, configuration, target, buildConfig, []))
    ensures DecodeBuildArgs(BuildArgs(configuration, target, platforms, buildConfig))
      == (configuration, target, platforms, buildConfig)
  {
    var bcArgs := Optional(buildConfig != "", ["--buildConfig", buildConfig]);
    var afterTarget := platforms + bcArgs;
    var afterConf := Optional(target != "", ["--" + target]) + afterTarget;
    var args := BuildArgs(configuration, target, platforms, buildConfig);
    BuildArgsNested(configuration, target, platforms, buildConfig);
    NoPlatformFlagFirst(platforms, bcArgs);
    TakeTargetOf(target, afterTarget);
    TargetFirst(target, afterTarget);
    TakeConfigurationOf(configuration, afterConf);
    TakeBuildConfigOf(platforms, buildConfig);
    assert TakeConfiguration(args) == (configuration, afterConf);
    assert TakeTarget(afterConf) == (target, afterTarget);
    assert TakeBuildConfig(afterTarget) == (buildConfig, platforms);
  }

  lemma BuildArgsNested(configuration: string, target: string, platforms: seq<string>, buildConfig: string)
    ensures BuildArgs(configuration, target, platforms, buildConfig)
      == Optional(configuration != "", ["--" + configuration])
         + (Optional(target != "", ["--" + target]) + (platforms + Optional(buildConfig != "", ["--buildConfig", buildConfig])))
  {
    var conf := Optional(configuration != "", ["--" + configuration]);
    var tgt := Optional(target != "", ["--" + target]);
    var bc := Optional(buildConfig != "", ["--buildConfig", buildConfig]);
    assert conf + tgt + platforms + bc == conf + (tgt + (platforms + bc));
  }

  lemma TargetFirst(target: string, tail: seq<string>)
    requires target == "" || target in TargetNames
    requires tail == [] || !IsFlag(tail[0]) || tail[0] == "--buildConfig"
    ensures var a := Optional(target != "", ["--" + target]) + tail;
      a == [] || !IsFlag(a[0]) || a[0] == "--buildConfig" || FlagName(a[0]) in TargetNames
  {
    if target != "" {
      assert FlagName("--" + target) == target;
    } else {
      assert [] + tail == tail;
    }
  }
  lemma NoPlatformFlagFirst(platforms: seq<string>, tail: seq<string>)
    requires forall i :: 0 <= i < |platforms| ==> !IsFlag(platforms[i])
    requires tail == [] || tail[0] == "--buildConfig"
    ensures var args := platforms + tail;
      args == [] || !IsFlag(args[0]) || args[0] == "--buildConfig"
  {
    if platforms != [] {
      assert (platforms + tail)[0] == platforms[0];
    }
  }

  lemma TakeTargetOf(target: string, tail: seq<string>)
    requires target == "" || target in TargetNames
    requires tail == [] || !IsFlag(tail[0]) || tail[0] == "--buildConfig"
    ensures TakeTarget(Optional(target != "", ["--" + target]) + tail) == (target, tail)
  {
    if target != "" {
      assert FlagName("--" + target) == target;
      assert (["--" + target] + tail)[1..] == tail;
    } else {
      assert [] + tail == tail;
      assert FlagName("--buildConfig") == "buildConfig";
    }
  }

  lemma TakeConfigurationOf(configuration: string, tail: seq<string>)
    requires configuration !in TargetNames && configuration != "buildConfig"
    requires tail == [] || !IsFlag(tail[0]) || tail[0] == "--buildConfig" || FlagName(tail[0]) in TargetNames
    ensures TakeConfiguration(Optional(configuration != "", ["--" + configuration]) + tail) == (configuration, tail)
  {
    if configuration != "" {
      assert FlagName("--" + configuration) == configuration;
      assert "--" + configuration != "--buildConfig";
      assert (["--" + configuration] + tail)[1..] == tail;
    } else {
      assert [] + tail == tail;
    }
  }

  lemma TakeBuildConfigOf(platforms: seq<string>, buildConfig: string)
    requires forall i :: 0 <= i < |platforms| ==> !IsFlag(platforms[i])
    ensures TakeBuildConfig(platforms + Optional(buildConfig != "", ["--buildConfig", buildConfig])) == (buildConfig, platforms)
  {
    var args := platforms + Optional(buildConfig != "", ["--buildConfig", buildConfig]);
    if buildConfig != "" {
      assert args[..|args| - 2] == platforms;
    } else {
      assert args == platforms;
      assert IsFlag("--buildConfig");
      if |args| >= 2 {
        assert !IsFlag(args[|args| - 2]);
      }
    }
  }
}
