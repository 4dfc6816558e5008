/** The end of the step (main.go:447-568): collecting the iOS and Android build products
    into the deploy directory, exporting their paths, and refusing a build that produced
    nothing for a requested platform. Failures end the step with a message, here an
    `Err`; the one warning (an `.app` export failure) does not. */
module CollectOutputs {
  import opened Results
  import opened Text
  import opened Paths
  import opened Artifacts
  import IosOutputs

  const IpaPathEnvKey := "BITRISE_IPA_PATH"
  const AppZipPathEnvKey := "BITRISE_APP_PATH"
  const AppDirPathEnvKey := "BITRISE_APP_DIR_PATH"
  const DsymDirPathEnvKey := "BITRISE_DSYM_DIR_PATH"
  const DsymZipPathEnvKey := "BITRISE_DSYM_PATH"
  const ApkPathEnvKey := "BITRISE_APK_PATH"
  const ApkPathListEnvKey := "BITRISE_APK_PATH_LIST"

  /** The four kinds of build product, collected in this order. */
  datatype Kind = Ipa | Dsym | App | Apk

  /** The extension searched for, case included. */
  function Extension(k: Kind): string {
    match k
    case Ipa => "ipa"
    case Dsym => "dSYM"
    case App => "app"
    case Apk => "apk"
  }

  /** The key of the last exported path of each kind. */
  function PathKey(k: Kind): string {
    match k
    case Ipa => IpaPathEnvKey
    case Dsym => DsymDirPathEnvKey
    case App => AppDirPathEnvKey
    case Apk => ApkPathEnvKey
  }

  /** Directories (dSYMs and apps) are also zipped next to the exported copy and the
      archive exported under this key. */
  function ZipKey(k: Kind): (key: Option<string>)
    ensures key.Some? <==> k == Dsym || k == App
  {
    match k
    case Dsym => Some(DsymZipPathEnvKey)
    case App => Some(AppZipPathEnvKey)
    case _ => None
  }

  /** The names the failure messages use. */
  function FindNoun(k: Kind): string {
    match k
    case Ipa => "ipas"
    case Dsym => "dSYMs"
    case App => "apps"
    case Apk => "apks"
  }

  function ExportNoun(k: Kind): string {
    match k
    case Ipa => "ipas"
    case Dsym => "dsyms"
    case App => "apps"
    case Apk => "apks"
  }

  function ZipNoun(k: Kind): string {
    if k == App then "app" else "dsym"
  }

  /** Everything outside the step's own logic: the file system with its copies and
      exports, the directory check, one walk per searched directory and extension, and
      the zip tool. */
  datatype World = World(
    fs: FileSystem,
    dirExists: string -> PathCheck,
    walks: (string, string) -> seq<WalkEntry>,
    zipDir: (string, string) -> Option<string>)

  /** The search for one kind of product in a directory: it fails exactly when a recent
      entry of the walk carries an error, and otherwise finds the recent entries with
      the kind's extension, in walk order. */
  function Search(world: World, dir: string, k: Kind, buildStart: int): (r: Result<seq<string>>)
    ensures var walk := world.walks(dir, Extension(k));
      r.Err? <==> exists j :: 0 <= j < |walk| && Stops(walk[j], buildStart)
    ensures r.Ok? ==> r.value == KeptPaths(world.walks(dir, Extension(k)), Keep(Extension(k), buildStart))
    ensures r.Ok? ==> forall i :: 0 <= i < |r.value| ==> Ext(r.value[i]) == "." + Extension(k)
  {
    var walk := world.walks(dir, Extension(k));
    var r := FindArtifact(walk, Extension(k), buildStart);
    if r.Ok? then
      FindArtifactKeepsMatches(walk, Extension(k), buildStart);
      r
    else r
  }

  /** The copy loop run on the found products of one kind. */
  function Copies(world: World, deployDir: string, found: seq<string>): Result<(seq<string>, seq<Effect>)> {
    CopyAll(CopyStep(world.fs, deployDir), found)
  }

  /** The tail of a kind's effects: for directories, the zip of the last copy and the
      export of the archive's path. */
  function ZipEffects(k: Kind, primary: string): seq<Effect> {
    if ZipKey(k).Some? then [Zipped(primary, primary + ".zip"), Exported(ZipKey(k).value, primary + ".zip")] else []
  }

  /** The copy and both exports of one kind's products succeed. */
  predicate KindExported(k: Kind, found: seq<string>, world: World, deployDir: string) {
    ExportsAll(world.fs, deployDir, PathKey(k), ApkPathListEnvKey, found)
  }

  /** The effects of a kind whose copy and exports succeeded and whose zip, for
      directories, went through too. */
  predicate AllEffects(k: Kind, found: seq<string>, world: World, deployDir: string, effects: seq<Effect>) {
    var copied := Copies(world, deployDir, found);
    && copied.Ok?
    && var copies := copied.value;
       var n := |copies.0|;
       && n > 0
       && effects == copies.1 + [Exported(PathKey(k), copies.0[n - 1]), Exported(ApkPathListEnvKey, JoinWith(copies.0, "|"))]
                     + ZipEffects(k, copies.0[n - 1])
  }

  /** The destination of the last copy: the path exported under the kind's key. */
  function ExportedPath(world: World, deployDir: string, found: seq<string>): string {
    var copied := Copies(world, deployDir, found);
    if copied.Ok? && copied.value.0 != [] then copied.value.0[|copied.value.0| - 1] else ""
  }

  /** The failure of zipping a directory kind's exported copy `p`, or else of exporting the
      archive's path; other kinds are not zipped. */
  function ZipFailure(k: Kind, p: string, world: World): (failure: Option<string>)
    ensures ZipKey(k).None? ==> failure.None?
    ensures ZipKey(k).Some? ==>
      (failure.None? <==> world.zipDir(p, p + ".zip").None? && world.fs.setEnv(ZipKey(k).value, p + ".zip").None?)
  {
    if ZipKey(k).None? then None
    else
      var zipped := p + ".zip";
      var zipFailure := world.zipDir(p, zipped);
      if zipFailure.Some? then Some("Failed to zip " + ZipNoun(k) + " dir (" + p + "), error: " + zipFailure.value)
      else
        var exportFailure := world.fs.setEnv(ZipKey(k).value, zipped);
        if exportFailure.Some? then Some("Failed to export " + ZipNoun(k) + ".zip (" + zipped + "), error: " + exportFailure.value)
        else None
  }

  /** The error that exporting a kind's found products ends the step with, if any: the
      export's, except for apps where it only warns, and otherwise the zip's. */
  function KindFailure(k: Kind, found: seq<string>, world: World, deployDir: string): Option<string> {
    if found == [] then None
    else if !KindExported(k, found, world, deployDir) then
      if k == App then None
      else Some("Failed to export " + ExportNoun(k) + ", error: "
                + ExportFailure(world.fs, deployDir, PathKey(k), ApkPathListEnvKey, found).value)
    else ZipFailure(k, ExportedPath(world, deployDir, found), world)
  }

  /** Exporting the found products of one kind: copy and export them, and for directories
      zip the last copy and export the archive. Every failure is fatal except an app
      copy or export failure, which only warns: the app copies and the export made
      before it stay done, and nothing is zipped. Every kind exports its paths under the
      APK list key. */
  method ExportKind(k: Kind, found: seq<string>, world: World, deployDir: string) returns (r: Result<seq<Effect>>)
    requires found != []
    ensures !KindExported(k, found, world, deployDir) ==> (r.Ok? <==> k == App)
    ensures !KindExported(k, found, world, deployDir) && r.Ok? ==>
      LeftAfterFailure(world.fs, deployDir, PathKey(k), ApkPathListEnvKey, found, r.value)
    ensures KindExported(k, found, world, deployDir) && r.Ok? ==> AllEffects(k, found, world, deployDir, r.value)
    ensures !KindExported(k, found, world, deployDir) && k != App ==>
      r == Err("Failed to export " + ExportNoun(k) + ", error: "
               + ExportFailure(world.fs, deployDir, PathKey(k), ApkPathListEnvKey, found).value)
    ensures KindExported(k, found, world, deployDir) ==>
      (r.Ok? <==> ZipFailure(k, ExportedPath(world, deployDir, found), world).None?)
    ensures KindExported(k, found, world, deployDir) && r.Err? ==>
      r == Err(ZipFailure(k, ExportedPath(world, deployDir, found), world).value)
  {
    var exported, performed := MoveAndExportOutputs(found, deployDir, PathKey(k), ApkPathListEnvKey, world.fs);
    if exported.Err? {
      if k == App {
        return Ok(performed);
      }
      return Err("Failed to export " + ExportNoun(k) + ", error: " + exported.error);
    }
    var primary := exported.value.primary;
    assert primary == ExportedPath(world, deployDir, found);
    var zipFailure := ZipFailure(k, primary, world);
    if zipFailure.Some? {
      return Err(zipFailure.value);
    }
    return Ok(exported.value.effects + ZipEffects(k, primary));
  }

  /** The error collecting one kind from a directory ends the step with, if any: the
      search's, else the export's. */
  function KindStepFailure(k: Kind, dir: string, world: World, buildStart: int, deployDir: string): Option<string> {
    var search := Search(world, dir, k, buildStart);
    if search.Err? then Some("Failed to find " + FindNoun(k) + " in dir (" + dir + "), error: " + search.error)
    else KindFailure(k, search.value, world, deployDir)
  }

  /** Collecting one kind from a directory: the search, then the export of what it
      found. A failed search ends the step. */
  method CollectKind(k: Kind, dir: string, world: World, buildStart: int, deployDir: string)
    returns (r: Result<(seq<string>, seq<Effect>)>)
    ensures Search(world, dir, k, buildStart).Err? ==>
      r == Err("Failed to find " + FindNoun(k) + " in dir (" + dir + "), error: " + Search(world, dir, k, buildStart).error)
    ensures r.Ok? ==> Search(world, dir, k, buildStart) == Ok(r.value.0)
    ensures r.Ok? && r.value.0 == [] ==> r.value.1 == []
    ensures r.Ok? && r.value.0 != [] && k != App ==> r.value.1 != []
    ensures Search(world, dir, k, buildStart).Ok? && Search(world, dir, k, buildStart).value != [] ==>
      var found := Search(world, dir, k, buildStart).value;
      && (!KindExported(k, found, world, deployDir) ==> (r.Ok? <==> k == App))
      && (!KindExported(k, found, world, deployDir) && r.Ok? ==>
            LeftAfterFailure(world.fs, deployDir, PathKey(k), ApkPathListEnvKey, found, r.value.1))
      && (KindExported(k, found, world, deployDir) && r.Ok? ==> AllEffects(k, found, world, deployDir, r.value.1))
    ensures Search(world, dir, k, buildStart) == Ok([]) ==> r == Ok(([], []))
    ensures r.Ok? <==> KindStepFailure(k, dir, world, buildStart, deployDir).None?
    ensures r.Err? ==> r == Err(KindStepFailure(k, dir, world, buildStart, deployDir).value)
  {
    var search := Search(world, dir, k, buildStart);
    if search.Err? {
      return Err("Failed to find " + FindNoun(k) + " in dir (" + dir + "), error: " + search.error);
    }
    var found := search.value;
    if found == [] {
      return Ok(([], []));
    }
    var effects := ExportKind(k, found, world, deployDir);
    if effects.Err? {
      return Err(effects.error);
    }
    return Ok((found, effects.value));
  }

  // ---------------------------------------------------------------------------
  // The environment after the exports

  /** The value a sequence of effects leaves under `key`: that of the last export to it. */
  function LastValue(effects: seq<Effect>, key: string): (v: Option<string>)
    ensures v.Some? <==> exists i :: 0 <= i < |effects| && effects[i].Exported? && effects[i].key == key
    decreases |effects|
  {
    if effects == [] then None
    else
      var last := effects[|effects| - 1];
      if last.Exported? && last.key == key then Some(last.value)
      else
        var v := LastValue(effects[..|effects| - 1], key);
        assert forall i :: 0 <= i < |effects| - 1 ==> effects[..|effects| - 1][i] == effects[i];
        v
  }

  /** Later exports override earlier ones. */
  lemma {:induction false} LastValueAppend(first: seq<Effect>, later: seq<Effect>, key: string)
    ensures LastValue(first + later, key) == if LastValue(later, key).Some? then LastValue(later, key) else LastValue(first, key)
    decreases |later|
  {
    if later == [] {
      assert first + later == first;
    } else {
      var all := first + later;
      assert all[|all| - 1] == later[|later| - 1];
      assert all[..|all| - 1] == first + later[..|later| - 1];
      LastValueAppend(first, later[..|later| - 1], key);
    }
  }

  // ---------------------------------------------------------------------------
  // Collecting and the final checks

  /** The directories searched: iOS products only in the legacy `platforms/ios/build/<target>`
      directory, Android ones anywhere under `platforms/android`. */
  function IosOutputDir(workDir: string, target: string): (d: string)
    ensures d == Join(IosOutputs.IosBuildDir(workDir), target)
    ensures target != [] && Separator !in target ==> Base(d) == target
    ensures |workDir| < |d| && d[..|workDir|] == workDir
  {
    var build := IosOutputs.IosBuildDir(workDir);
    IosOutputDirJoins(workDir, target);
    if target != [] then
      JoinKeepsPrefix(workDir, build, target);
      if Separator !in target then
        BaseOfJoin(build, target);
        JoinAll(workDir, ["platforms", "ios", "build", target])
      else JoinAll(workDir, ["platforms", "ios", "build", target])
    else JoinAll(workDir, ["platforms", "ios", "build", target])
  }

  lemma IosOutputDirJoins(workDir: string, target: string)
    ensures JoinAll(workDir, ["platforms", "ios", "build", target]) == Join(IosOutputs.IosBuildDir(workDir), target)
  {
    var names := ["platforms", "ios", "build", target];
    var p := Join(workDir, "platforms");
    var i := Join(p, "ios");
    var build := Join(i, "build");
    assert names[1..] == ["ios", "build", target];
    assert JoinAll(workDir, names) == JoinAll(p, ["ios", "build", target]);
    assert ["ios", "build", target][1..] == ["build", target];
    assert JoinAll(p, ["ios", "build", target]) == JoinAll(i, ["build", target]);
    assert ["build", target][1..] == [target];
    assert JoinAll(i, ["build", target]) == JoinAll(build, [target]);
    assert [target][1..] == [];
    assert JoinAll(build, [target]) == Join(build, target);
    assert build == IosOutputs.IosBuildDir(workDir);
  }

  function AndroidOutputDir(workDir: string): (d: string)
    ensures d == Join(Join(workDir, "platforms"), "android")
    ensures Base(d) == "android"
    ensures |workDir| < |d| && d[..|workDir|] == workDir
  {
    AndroidOutputDirJoins(workDir);
    JoinAll(workDir, ["platforms", "android"])
  }

  lemma AndroidOutputDirJoins(workDir: string)
    ensures JoinAll(workDir, ["platforms", "android"]) == Join(Join(workDir, "platforms"), "android")
    ensures Base(Join(Join(workDir, "platforms"), "android")) == "android"
    ensures var d := Join(Join(workDir, "platforms"), "android");
      |workDir| < |d| && d[..|workDir|] == workDir
  {
    var names := ["platforms", "android"];
    assert names[1..] == ["android"];
    assert ["android"][1..] == [];
    var platforms := Join(workDir, "platforms");
    var android: string := "android";
    assert Separator !in android by {
      forall i | 0 <= i < |android| ensures android[i] != '/' { }
    }
    BaseOfJoin(platforms, android);
    JoinKeepsPrefix(workDir, workDir, "platforms");
    JoinKeepsPrefix(workDir, platforms, android);
  }

  /** The searched iOS directory is the legacy candidate, the first of the two that the
      later revision in ios_outputs.go tries. */
  lemma IosOutputDirIsLegacyCandidate(workDir: string, target: string, configuration: string)
    ensures IosOutputDir(workDir, target) == IosOutputs.CandidateDirs(workDir, target, configuration)[0]
  {
  }

  /** Every requested platform produced what its target needs: an APK for Android, an
      `.app` for an iOS emulator build, an `.ipa` for an iOS device build. */
  predicate Delivered(platforms: seq<string>, target: string, apks: seq<string>, apps: seq<string>, ipas: seq<string>) {
    && ("android" in platforms ==> apks != [])
    && ("ios" in platforms && target == "emulator" ==> apps != [])
    && ("ios" in platforms && target == "device" ==> ipas != [])
  }

  /** The final checks: the first requirement that fails, with its message. */
  function FinalCheck(platforms: seq<string>, target: string, apks: seq<string>, apps: seq<string>, ipas: seq<string>): (failure: Option<string>)
    ensures failure.None? <==> Delivered(platforms, target, apks, apps, ipas)
    ensures failure == Some("No apk generated") <==> "android" in platforms && apks == []
    ensures failure == Some("no apps generated") <==>
      !("android" in platforms && apks == []) && "ios" in platforms && target == "emulator" && apps == []
    ensures failure == Some("no ipas generated") <==>
      !("android" in platforms && apks == []) && "ios" in platforms && target == "device" && ipas == []
  {
    if |apks| == 0 && "android" in platforms then Some("No apk generated")
    else if "ios" in platforms && |apps| == 0 && target == "emulator" then Some("no apps generated")
    else if "ios" in platforms && |ipas| == 0 && target == "device" then Some("no ipas generated")
    else None
  }

  /** What the search of a kind in a directory found, or nothing when the directory is not there. */
  function FoundIn(world: World, dir: string, k: Kind, buildStart: int): seq<string> {
    if CheckPath(world.dirExists, dir) == Exists && Search(world, dir, k, buildStart).Ok?
    then Search(world, dir, k, buildStart).value
    else []
  }

  /** The error checking a platform's output directory ends the step with, if any. */
  function DirCheckFailure(world: World, dir: string): Option<string> {
    match CheckPath(world.dirExists, dir)
    case CheckFailed(reason) => Some("Failed to check if dir (" + dir + ") exist, error: " + reason)
    case _ => None
  }

  /** The error the iOS half ends the step with, if any: the directory check, then ipas,
      dSYMs and apps in turn, each searched and then exported. */
  function IosHalfFailure(world: World, workDir: string, target: string, buildStart: int, deployDir: string): Option<string> {
    var dir := IosOutputDir(workDir, target);
    if CheckPath(world.dirExists, dir) != Exists then DirCheckFailure(world, dir)
    else if KindStepFailure(Ipa, dir, world, buildStart, deployDir).Some? then KindStepFailure(Ipa, dir, world, buildStart, deployDir)
    else if KindStepFailure(Dsym, dir, world, buildStart, deployDir).Some? then KindStepFailure(Dsym, dir, world, buildStart, deployDir)
    else KindStepFailure(App, dir, world, buildStart, deployDir)
  }

  /** The error the Android half ends the step with, if any: the directory check, then the
      APK search and export. */
  function AndroidHalfFailure(world: World, workDir: string, buildStart: int, deployDir: string): Option<string> {
    var dir := AndroidOutputDir(workDir);
    if CheckPath(world.dirExists, dir) != Exists then DirCheckFailure(world, dir)
    else KindStepFailure(Apk, dir, world, buildStart, deployDir)
  }

  /** Neither half ends the step. */
  predicate HalvesSucceed(world: World, workDir: string, target: string, buildStart: int, deployDir: string) {
    IosHalfFailure(world, workDir, target, buildStart, deployDir).None? && AndroidHalfFailure(world, workDir, buildStart, deployDir).None?
  }

  /** The final checks on what the two halves found. */
  function FinalFailure(world: World, workDir: string, platforms: seq<string>, target: string, buildStart: int): Option<string> {
    FinalCheck(platforms, target,
      FoundIn(world, AndroidOutputDir(workDir), Apk, buildStart),
      FoundIn(world, IosOutputDir(workDir, target), App, buildStart),
      FoundIn(world, IosOutputDir(workDir, target), Ipa, buildStart))
  }

  /** What the collection found and did. */
  datatype Collected = Collected(ipas: seq<string>, dsyms: seq<string>, apps: seq<string>, apks: seq<string>, effects: seq<Effect>)

  /** The iOS half: nothing when the directory is missing, a failure when it cannot be
      checked, and otherwise ipas, then dSYMs, then apps. */
  method CollectIos(world: World, workDir: string, target: string, buildStart: int, deployDir: string)
    returns (r: Result<Collected>)
    ensures var dir := IosOutputDir(workDir, target);
      CheckPath(world.dirExists, dir).CheckFailed? ==>
        r == Err("Failed to check if dir (" + dir + ") exist, error: " + CheckPath(world.dirExists, dir).reason)
    ensures CheckPath(world.dirExists, IosOutputDir(workDir, target)) == Missing ==> r == Ok(Collected([], [], [], [], []))
    ensures r.Ok? ==> r.value.apks == []
    ensures r.Ok? && CheckPath(world.dirExists, IosOutputDir(workDir, target)) == Exists ==>
      var dir := IosOutputDir(workDir, target);
      && Search(world, dir, Ipa, buildStart) == Ok(r.value.ipas)
      && Search(world, dir, Dsym, buildStart) == Ok(r.value.dsyms)
      && Search(world, dir, App, buildStart) == Ok(r.value.apps)
    ensures r.Ok? <==> IosHalfFailure(world, workDir, target, buildStart, deployDir).None?
    ensures r.Err? ==> r == Err(IosHalfFailure(world, workDir, target, buildStart, deployDir).value)
    ensures r.Ok? ==> r.value.ipas == FoundIn(world, IosOutputDir(workDir, target), Ipa, buildStart)
    ensures r.Ok? ==> r.value.dsyms == FoundIn(world, IosOutputDir(workDir, target), Dsym, buildStart)
    ensures r.Ok? ==> r.value.apps == FoundIn(world, IosOutputDir(workDir, target), App, buildStart)
  {
    var dir := IosOutputDir(workDir, target);
    match CheckPath(world.dirExists, dir) {
      case CheckFailed(reason) =>
        return Err("Failed to check if dir (" + dir + ") exist, error: " + reason);
      case Missing =>
        return Ok(Collected([], [], [], [], []));
      case Exists =>
    }
    var ipas := CollectKind(Ipa, dir, world, buildStart, deployDir);
    if ipas.Err? {
      return Err(ipas.error);
    }
    var dsyms := CollectKind(Dsym, dir, world, buildStart, deployDir);
    if dsyms.Err? {
      return Err(dsyms.error);
    }
    var apps := CollectKind(App, dir, world, buildStart, deployDir);
    if apps.Err? {
      return Err(apps.error);
    }
    return Ok(Collected(ipas.value.0, dsyms.value.0, apps.value.0, [], ipas.value.1 + dsyms.value.1 + apps.value.1));
  }

  /** The Android half: APKs anywhere under `platforms/android`. */
  method CollectAndroid(world: World, workDir: string, buildStart: int, deployDir: string)
    returns (r: Result<(seq<string>, seq<Effect>)>)
    ensures var dir := AndroidOutputDir(workDir);
      CheckPath(world.dirExists, dir).CheckFailed? ==>
        r == Err("Failed to check if dir (" + dir + ") exist, error: " + CheckPath(world.dirExists, dir).reason)
    ensures CheckPath(world.dirExists, AndroidOutputDir(workDir)) == Missing ==> r == Ok(([], []))
    ensures r.Ok? && CheckPath(world.dirExists, AndroidOutputDir(workDir)) == Exists ==>
      Search(world, AndroidOutputDir(workDir), Apk, buildStart) == Ok(r.value.0)
    ensures r.Ok? && r.value.0 != [] ==>
      && Copies(world, deployDir, r.value.0).Ok?
      && LastValue(r.value.1, ApkPathListEnvKey) == Some(JoinWith(Copies(world, deployDir, r.value.0).value.0, "|"))
    ensures r.Ok? <==> AndroidHalfFailure(world, workDir, buildStart, deployDir).None?
    ensures r.Err? ==> r == Err(AndroidHalfFailure(world, workDir, buildStart, deployDir).value)
    ensures r.Ok? ==> r.value.0 == FoundIn(world, AndroidOutputDir(workDir), Apk, buildStart)
  {
    var dir := AndroidOutputDir(workDir);
    match CheckPath(world.dirExists, dir) {
      case CheckFailed(reason) =>
        return Err("Failed to check if dir (" + dir + ") exist, error: " + reason);
      case Missing =>
        return Ok(([], []));
      case Exists =>
    }
    r := CollectKind(Apk, dir, world, buildStart, deployDir);
    if r.Ok? && r.value.0 != [] {
      assert KindExported(Apk, r.value.0, world, deployDir);
      ApkListExportedLast(r.value.0, world, deployDir, r.value.1);
    }
  }

  /** After a complete APK export the list key holds the joined copy paths: no zip follows it. */
  lemma ApkListExportedLast(found: seq<string>, world: World, deployDir: string, effects: seq<Effect>)
    requires AllEffects(Apk, found, world, deployDir, effects)
    ensures Copies(world, deployDir, found).Ok?
    ensures LastValue(effects, ApkPathListEnvKey) == Some(JoinWith(Copies(world, deployDir, found).value.0, "|"))
  {
    assert ZipEffects(Apk, Copies(world, deployDir, found).value.0[|Copies(world, deployDir, found).value.0| - 1]) == [];
    assert effects[|effects| - 1] == Exported(ApkPathListEnvKey, JoinWith(Copies(world, deployDir, found).value.0, "|"));
  }

  /** Collecting the outputs, then the final checks. A successful step delivered what every
      requested platform needs, and when APKs were found the APK list key ends up holding
      their paths, whatever the iOS exports wrote there before. */
  method Collect(world: World, workDir: string, platforms: seq<string>, target: string, buildStart: int, deployDir: string)
    returns (r: Result<Collected>)
    ensures r.Ok? ==> Delivered(platforms, target, r.value.apks, r.value.apps, r.value.ipas)
    ensures r.Ok? && CheckPath(world.dirExists, IosOutputDir(workDir, target)) != Exists ==>
      r.value.ipas == [] && r.value.dsyms == [] && r.value.apps == []
    ensures r.Ok? && CheckPath(world.dirExists, AndroidOutputDir(workDir)) != Exists ==> r.value.apks == []
    ensures r.Ok? && r.value.apks != [] ==>
      && Copies(world, deployDir, r.value.apks).Ok?
      && LastValue(r.value.effects, ApkPathListEnvKey) == Some(JoinWith(Copies(world, deployDir, r.value.apks).value.0, "|"))
    ensures IosHalfFailure(world, workDir, target, buildStart, deployDir).Some? ==>
      r == Err(IosHalfFailure(world, workDir, target, buildStart, deployDir).value)
    ensures IosHalfFailure(world, workDir, target, buildStart, deployDir).None? ==>
      AndroidHalfFailure(world, workDir, buildStart, deployDir).Some? ==>
        r == Err(AndroidHalfFailure(world, workDir, buildStart, deployDir).value)
    ensures HalvesSucceed(world, workDir, target, buildStart, deployDir) ==>
      (r.Ok? <==> FinalFailure(world, workDir, platforms, target, buildStart).None?)
    ensures HalvesSucceed(world, workDir, target, buildStart, deployDir) ==>
      FinalFailure(world, workDir, platforms, target, buildStart).Some? ==>
        r == Err(FinalFailure(world, workDir, platforms, target, buildStart).value)
    ensures r.Ok? ==>
      && r.value.ipas == FoundIn(world, IosOutputDir(workDir, target), Ipa, buildStart)
      && r.value.dsyms == FoundIn(world, IosOutputDir(workDir, target), Dsym, buildStart)
      && r.value.apps == FoundIn(world, IosOutputDir(workDir, target), App, buildStart)
      && r.value.apks == FoundIn(world, AndroidOutputDir(workDir), Apk, buildStart)
  {
    var ios := CollectIos(world, workDir, target, buildStart, deployDir);
    if ios.Err? {
      return Err(ios.error);
    }
    var android := CollectAndroid(world, workDir, buildStart, deployDir);
    if android.Err? {
      return Err(android.error);
    }
    var c := ios.value;
    var failure := FinalCheck(platforms, target, android.value.0, c.apps, c.ipas);
    if failure.Some? {
      return Err(failure.value);
    }
    LastValueAppend(c.effects, android.value.1, ApkPathListEnvKey);
    return Ok(Collected(c.ipas, c.dsyms, c.apps, android.value.0, c.effects + android.value.1));
  }
}
