/** `buildIonicCommandArgs`, a later revision of the build-command assembly that
    main_test.go describes: the arguments after the program name, and for android a
    trailing `--packageType=apk|bundle` flag, preceded by the `-- --` pass-through
    separator unless the options already contain a `--` token. Its body belongs to
    another revision of the repository; the rule below is an assumed one, consistent
    with every row of the test table, and the rows are proved as lemmas. The guard for a
    platform other than android is untested. */
module BuildArgs {
  import opened Commands
  import Ionic

  const Separator := "--"

  function PackageType(isAAB: bool): (flag: string)
    ensures flag == if isAAB then "--packageType=bundle" else "--packageType=apk"
  {
    "--packageType=" + (if isAAB then "bundle" else "apk")
  }

  const PackageTypePrefix := "--packageType="

  /** A `--packageType=...` flag. */
  predicate IsPackageTypeFlag(arg: string) {
    |PackageTypePrefix| <= |arg| && arg[..|PackageTypePrefix|] == PackageTypePrefix
  }

  /** How many `--packageType=...` flags the arguments hold. */
  function CountPackageTypeFlags(args: seq<string>): (n: nat)
    ensures n <= |args|
    decreases |args|
  {
    if args == [] then 0
    else (if IsPackageTypeFlag(args[0]) then 1 else 0) + CountPackageTypeFlags(args[1..])
  }

  lemma {:induction false} CountPackageTypeFlagsAppend(a: seq<string>, b: seq<string>)
    ensures CountPackageTypeFlags(a + b) == CountPackageTypeFlags(a) + CountPackageTypeFlags(b)
    decreases |a|
  {
    if a == [] {
      assert a + b == b;
    } else {
      assert (a + b)[0] == a[0];
      assert (a + b)[1..] == a[1..] + b;
      CountPackageTypeFlagsAppend(a[1..], b);
    }
  }

  /** What follows the options: nothing for a platform other than android; for android
      the separator pair when the options have no separator, then the package type. */
  function AndroidTail(platform: string, isAAB: bool, options: seq<string>): (tail: seq<string>)
    ensures platform != "android" ==> tail == []
    ensures platform == "android" ==> |tail| >= 1 && tail[|tail| - 1] == PackageType(isAAB)
    ensures platform == "android" && Separator !in options ==> tail == [Separator, Separator, PackageType(isAAB)]
    ensures platform == "android" && Separator in options ==> tail == [PackageType(isAAB)]
  {
    if platform != "android" then []
    else (if Separator in options then [] else [Separator, Separator]) + [PackageType(isAAB)]
  }

  /** The arguments of the build command: those of the builder's build command for the
      one platform, the options verbatim, then the android tail. */
  function BuildIonicCommandArgs(ionicMajorVersion: int, configuration: string, target: string,
                                 buildConfig: string, platform: string, isAAB: bool,
                                 options: seq<string>): (args: seq<string>)
    ensures var b := Ionic.Model(ionicMajorVersion, [platform], configuration, target, buildConfig, []);
      args == Argv(Ionic.BuildCommand(b))[1..] + options + AndroidTail(platform, isAAB, options)
  {
    var b := Ionic.Model(ionicMajorVersion, [platform], configuration, target, buildConfig, []);
    var argv := Ionic.Prefix(ionicMajorVersion) + ["build"] + Ionic.BuildArgs(configuration, target, [platform], buildConfig);
    var c := Argv(Ionic.BuildCommand(b));
    var n := |Ionic.Prefix(ionicMajorVersion)|;
    assert c == c[..n] + [c[n]] + c[n + 1..];
    argv[1..] + options + AndroidTail(platform, isAAB, options)
  }

  /** For android the last argument is always the package type, the options sit
      verbatim in front of the tail, a separator is present, and the tail adds exactly
      one `--packageType=...` flag to those of the build command and the options. */
  lemma AndroidArgsEndWithPackageType(ionicMajorVersion: int, configuration: string, target: string,
                                      buildConfig: string, isAAB: bool, options: seq<string>)
    ensures var args := BuildIonicCommandArgs(ionicMajorVersion, configuration, target, buildConfig, "android", isAAB, options);
      var tail := AndroidTail("android", isAAB, options);
      && args[|args| - 1] == PackageType(isAAB)
      && args[|args| - |tail| - |options|..|args| - |tail|] == options
      && Separator in args
    ensures var b := Ionic.Model(ionicMajorVersion, ["android"], configuration, target, buildConfig, []);
      CountPackageTypeFlags(BuildIonicCommandArgs(ionicMajorVersion, configuration, target, buildConfig, "android", isAAB, options))
        == CountPackageTypeFlags(Argv(Ionic.BuildCommand(b))[1..]) + CountPackageTypeFlags(options) + 1
  {
    var b := Ionic.Model(ionicMajorVersion, ["android"], configuration, target, buildConfig, []);
    var head := Argv(Ionic.BuildCommand(b))[1..];
    OptionsThenTail(head, isAAB, options);
    var tail := AndroidTail("android", isAAB, options);
    CountPackageTypeFlagsAppend(head, options);
    CountPackageTypeFlagsAppend(head + options, tail);
    TailHasOneFlag(isAAB, options);
  }

  /** The android tail holds one `--packageType=...` flag: the separator is not one. */
  lemma TailHasOneFlag(isAAB: bool, options: seq<string>)
    ensures CountPackageTypeFlags(AndroidTail("android", isAAB, options)) == 1
  {
    var flag := PackageType(isAAB);
    assert flag[..|PackageTypePrefix|] == PackageTypePrefix;
    assert IsPackageTypeFlag(flag);
    var one: seq<string> := [flag];
    assert CountPackageTypeFlags(one) == 1 by {
      assert one[1..] == [];
    }
    if Separator !in options {
      assert !IsPackageTypeFlag(Separator);
      var tail := [Separator, Separator, flag];
      assert tail[1..] == [Separator, flag];
      assert tail[1..][1..] == [flag];
    }
  }

  lemma OptionsThenTail(head: seq<string>, isAAB: bool, options: seq<string>)
    ensures var tail := AndroidTail("android", isAAB, options);
      var args := head + options + tail;
      && args[|args| - 1] == PackageType(isAAB)
      && args[|args| - |tail| - |options|..|args| - |tail|] == options
      && Separator in args
  {
    var tail := AndroidTail("android", isAAB, options);
    var args := head + options + tail;
    var n := |head| + |options|;
    assert |args| == n + |tail|;
    assert forall i :: 0 <= i < |tail| ==> args[n + i] == tail[i];
    assert args[|args| - 1] == tail[|tail| - 1];
    assert forall i :: 0 <= i < |options| ==> args[|head| + i] == options[i];
    assert args[|head|..n] == options;
    if Separator in options {
      var i :| 0 <= i < |options| && options[i] == Separator;
      assert args[|head| + i] == Separator;
    } else {
      assert args[n] == Separator;
    }
  }

  /** The common head of every row: major version 3, release, device, the build config
      `/foo/bar/baz/qux` and android. */
  lemma TableHead(isAAB: bool, options: seq<string>)
    ensures BuildIonicCommandArgs(3, "release", "device", "/foo/bar/baz/qux", "android", isAAB, options)
      == ["cordova", "build", "--release", "--device", "android", "--buildConfig", "/foo/bar/baz/qux"]
         + options + AndroidTail("android", isAAB, options)
  {
    assert "--" + "release" == "--release";
    assert "--" + "device" == "--device";
    var b := Ionic.Model(3, ["android"], "release", "device", "/foo/bar/baz/qux", []);
    assert Ionic.BuildArgs("release", "device", ["android"], "/foo/bar/baz/qux")
      == ["--release", "--device", "android", "--buildConfig", "/foo/bar/baz/qux"];
    assert Argv(Ionic.BuildCommand(b))[1..]
      == ["cordova", "build", "--release", "--device", "android", "--buildConfig", "/foo/bar/baz/qux"];
  }

  lemma NoOptionsNoAAB()
    ensures BuildIonicCommandArgs(3, "release", "device", "/foo/bar/baz/qux", "android", false, [])
      == ["cordova", "build", "--release", "--device", "android", "--buildConfig", "/foo/bar/baz/qux", "--", "--", "--packageType=apk"]
  {
    TableHead(false, []);
  }

  lemma NoOptionsAAB()
    ensures BuildIonicCommandArgs(3, "release", "device", "/foo/bar/baz/qux", "android", true, [])
      == ["cordova", "build", "--release", "--device", "android", "--buildConfig", "/foo/bar/baz/qux", "--", "--", "--packageType=bundle"]
  {
    TableHead(true, []);
  }

  lemma SimpleOptionsAAB()
    ensures BuildIonicCommandArgs(3, "release", "device", "/foo/bar/baz/qux", "android", true, ["foo", "bar"])
      == ["cordova", "build", "--release", "--device", "android", "--buildConfig", "/foo/bar/baz/qux", "foo", "bar", "--", "--", "--packageType=bundle"]
  {
    TableHead(true, ["foo", "bar"]);
    assert Separator !in ["foo", "bar"];
  }

  lemma SimpleOptionsNoAAB()
    ensures BuildIonicCommandArgs(3, "release", "device", "/foo/bar/baz/qux", "android", false, ["foo", "bar"])
      == ["cordova", "build", "--release", "--device", "android", "--buildConfig", "/foo/bar/baz/qux", "foo", "bar", "--", "--", "--packageType=apk"]
  {
    TableHead(false, ["foo", "bar"]);
    assert Separator !in ["foo", "bar"];
  }

  lemma SimpleOptionsPlatformAAB()
    ensures BuildIonicCommandArgs(3, "release", "device", "/foo/bar/baz/qux", "android", true, ["foo", "bar", "--", "--", "--baz=qux"])
      == ["cordova", "build", "--release", "--device", "android", "--buildConfig", "/foo/bar/baz/qux", "foo", "bar", "--", "--", "--baz=qux", "--packageType=bundle"]
  {
    var options: seq<string> := ["foo", "bar", "--", "--", "--baz=qux"];
    TableHead(true, options);
    assert options[2] == Separator;
    assert AndroidTail("android", true, options) == ["--packageType=bundle"];
  }

  lemma ComplexOptionsAAB()
    ensures BuildIonicCommandArgs(3, "release", "device", "/foo/bar/baz/qux", "android", true, ["foo", "bar", "--", "baz", "--", "qux"])
      == ["cordova", "build", "--release", "--device", "android", "--buildConfig", "/foo/bar/baz/qux", "foo", "bar", "--", "baz", "--", "qux", "--packageType=bundle"]
  {
    var options: seq<string> := ["foo", "bar", "--", "baz", "--", "qux"];
    TableHead(true, options);
    assert options[2] == Separator;
    assert AndroidTail("android", true, options) == ["--packageType=bundle"];
  }
}
