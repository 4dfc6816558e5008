/** ios_outputs.go: where the Xcode build of a Cordova project leaves its products. Up
    to cordova-ios 6 it is `platforms/ios/build/<target>`; from cordova-ios 7 it is
    `platforms/ios/build/<Configuration>-<sdk>`. */
module IosOutputs {
  import opened Paths
  import opened Text

  const DeviceSdk := "iphoneos"
  const SimulatorSdk := "iphonesimulator"

  /** `<workDir>/platforms/ios/build`, the parent of both layouts. */
  function IosBuildDir(workDir: string): (d: string)
    ensures d != []
    ensures |workDir| < |d| && d[..|workDir|] == workDir
  {
    var platforms := Join(workDir, "platforms");
    var ios := Join(platforms, "ios");
    JoinKeepsPrefix(workDir, workDir, "platforms");
    JoinKeepsPrefix(workDir, platforms, "ios");
    JoinKeepsPrefix(workDir, ios, "build");
    Join(ios, "build")
  }

  /** The sdk the build targets: the device sdk for "device", the simulator sdk for any
      other target. */
  function SdkFor(target: string): (sdk: string)
    ensures sdk == DeviceSdk <==> target == "device"
    ensures sdk != DeviceSdk ==> sdk == SimulatorSdk
  {
    if target == "device" then DeviceSdk else SimulatorSdk
  }

  /** The directory name cordova-ios 7 uses: the title-cased configuration, a dash, then
      the sdk. */
  function ModernComponent(target: string, configuration: string): (c: string)
    ensures |c| == |configuration| + 1 + |SdkFor(target)|
    ensures c[..|configuration|] == Title(configuration)
    ensures c[|configuration|] == '-' && c[|configuration| + 1..] == SdkFor(target)
  {
    Title(configuration) + "-" + SdkFor(target)
  }

  /** `getIosOutputCandidateDirsPaths`: the legacy directory first, then the cordova-ios 7
      one, both inside the same build directory. */
  function CandidateDirs(workDir: string, target: string, configuration: string): (dirs: seq<string>)
    ensures |dirs| == 2
    ensures dirs[0] == Join(IosBuildDir(workDir), target)
    ensures dirs[1] == Join(IosBuildDir(workDir), ModernComponent(target, configuration))
  {
    [Join(IosBuildDir(workDir), target), Join(IosBuildDir(workDir), ModernComponent(target, configuration))]
  }

  /** Read back: the final element of the legacy candidate is the target, and the final
      element of the modern one is the title-cased configuration, a dash and the sdk
      chosen by the target. */
  lemma CandidateNames(workDir: string, target: string, configuration: string)
    requires target != [] && Separator !in target
    requires Separator !in configuration
    ensures var dirs := CandidateDirs(workDir, target, configuration);
      && Base(dirs[0]) == target
      && Base(dirs[1]) == Title(configuration) + "-" + SdkFor(target)
      && (Base(dirs[1])[|configuration| + 1..] == DeviceSdk <==> target == "device")
  {
    BaseOfJoin(IosBuildDir(workDir), target);
    ModernComponentIsOneElement(target, configuration);
    BaseOfJoin(IosBuildDir(workDir), ModernComponent(target, configuration));
  }

  lemma ModernComponentIsOneElement(target: string, configuration: string)
    requires Separator !in configuration
    ensures Separator !in ModernComponent(target, configuration)
  {
    var c := ModernComponent(target, configuration);
    var t := Title(configuration);
    forall i | 0 <= i < |c| ensures c[i] != Separator {
      if i < |configuration| {
        assert c[i] == t[i];
        assert configuration[i] != Separator;
      } else if i > |configuration| {
        assert c[i] == SdkFor(target)[i - |configuration| - 1];
      }
    }
  }

  lemma DeviceDebugCandidates()
    ensures CandidateDirs("/workdir", "device", "debug")
      == ["/workdir/platforms/ios/build/device", "/workdir/platforms/ios/build/Debug-iphoneos"]
  {
    WorkdirCandidates("device", "debug");
    DebugDeviceComponent();
    DeviceDebugPaths();
  }

  lemma EmulatorReleaseCandidates()
    ensures CandidateDirs("/workdir", "emulator", "release")
      == ["/workdir/platforms/ios/build/emulator", "/workdir/platforms/ios/build/Release-iphonesimulator"]
  {
    WorkdirCandidates("emulator", "release");
    ReleaseSimulatorComponent();
    EmulatorReleasePaths();
  }

  lemma DeviceDebugPaths()
    ensures "/workdir/platforms/ios/build/" + "device" == "/workdir/platforms/ios/build/device"
    ensures "/workdir/platforms/ios/build/" + "Debug-iphoneos" == "/workdir/platforms/ios/build/Debug-iphoneos"
  {
  }

  lemma EmulatorReleasePaths()
    ensures "/workdir/platforms/ios/build/" + "emulator" == "/workdir/platforms/ios/build/emulator"
    ensures "/workdir/platforms/ios/build/" + "Release-iphonesimulator" == "/workdir/platforms/ios/build/Release-iphonesimulator"
  {
  }

  lemma WorkdirCandidates(target: string, configuration: string)
    requires target != []
    ensures CandidateDirs("/workdir", target, configuration)
      == ["/workdir/platforms/ios/build/" + target, "/workdir/platforms/ios/build/" + ModernComponent(target, configuration)]
  {
    WorkdirBuildDir();
    var b := IosBuildDir("/workdir");
    var c := ModernComponent(target, configuration);
    assert b[|b| - 1] == 'd';
    assert b + "/" == "/workdir/platforms/ios/build/";
    assert Join(b, target) == b + "/" + target;
    assert Join(b, c) == b + "/" + c;
  }

  lemma DebugDeviceComponent()
    ensures ModernComponent("device", "debug") == "Debug-iphoneos"
  {
    TitleOfDebug();
  }

  lemma ReleaseSimulatorComponent()
    ensures ModernComponent("emulator", "release") == "Release-iphonesimulator"
  {
    TitleOfRelease();
  }

  lemma TitleOfDebug()
    ensures Title("debug") == "Debug"
  {
    var t := Title("debug");
    assert t[0] == 'D' && t[1] == 'e' && t[2] == 'b' && t[3] == 'u' && t[4] == 'g';
  }

  lemma TitleOfRelease()
    ensures Title("release") == "Release"
  {
    var t := Title("release");
    assert t[0] == 'R' && t[1] == 'e' && t[2] == 'l' && t[3] == 'e' && t[4] == 'a' && t[5] == 's' && t[6] == 'e';
  }

  lemma WorkdirBuildDir()
    ensures IosBuildDir("/workdir") == "/workdir/platforms/ios/build"
  {
    assert Join("/workdir", "platforms") == "/workdir/platforms";
    assert Join("/workdir/platforms", "ios") == "/workdir/platforms/ios";
    assert Join("/workdir/platforms/ios", "build") == "/workdir/platforms/ios/build";
  }

  /** A candidate's directory check found it. */
  predicate Found(dirCheck: string -> PathCheck, p: string) {
    CheckPath(dirCheck, p) == Exists
  }

  predicate NoneFound(candidates: seq<string>, dirCheck: string -> PathCheck) {
    forall i :: 0 <= i < |candidates| ==> !Found(dirCheck, candidates[i])
  }

  /** Candidate `i` is found and every candidate before it is not. */
  predicate FirstHit(candidates: seq<string>, dirCheck: string -> PathCheck, i: int) {
    && 0 <= i < |candidates|
    && Found(dirCheck, candidates[i])
    && forall j :: 0 <= j < i ==> !Found(dirCheck, candidates[j])
  }

  /** `findFirstExistingDir`: the first candidate whose directory check succeeds and finds
      it; a candidate whose check fails is skipped like a missing one, and "" means none
      was found. */
  function FindFirstExistingDir(candidates: seq<string>, dirCheck: string -> PathCheck): (r: string)
    ensures r == "" <==> NoneFound(candidates, dirCheck)
    ensures r != "" ==> exists i :: FirstHit(candidates, dirCheck, i) && candidates[i] == r
    decreases |candidates|
  {
    if candidates == [] then ""
    else if Found(dirCheck, candidates[0]) then
      assert candidates[0] != "";
      candidates[0]
    else
      var r := FindFirstExistingDir(candidates[1..], dirCheck);
      FirstFoundOfTail(candidates, dirCheck, r);
      r
  }

  /** A first hit in the tail, behind a head that was not found, is the first hit of the
      whole list; no hit in the tail means none at all. */
  lemma FirstFoundOfTail(candidates: seq<string>, dirCheck: string -> PathCheck, r: string)
    requires candidates != [] && !Found(dirCheck, candidates[0])
    requires r == "" <==> NoneFound(candidates[1..], dirCheck)
    requires r != "" ==> exists i :: FirstHit(candidates[1..], dirCheck, i) && candidates[1..][i] == r
    ensures r == "" <==> NoneFound(candidates, dirCheck)
    ensures r != "" ==> exists i :: FirstHit(candidates, dirCheck, i) && candidates[i] == r
  {
    if r != "" {
      var i :| FirstHit(candidates[1..], dirCheck, i) && candidates[1..][i] == r;
      assert candidates[i + 1] == r;
      forall j | 0 <= j < i + 1 ensures !Found(dirCheck, candidates[j]) {
        if j > 0 { assert candidates[j] == candidates[1..][j - 1]; }
      }
      assert FirstHit(candidates, dirCheck, i + 1);
    } else {
      forall i | 0 <= i < |candidates| ensures !Found(dirCheck, candidates[i]) {
        if i > 0 { assert candidates[i] == candidates[1..][i - 1]; }
      }
    }
  }
}
