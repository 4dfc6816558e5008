# steps-ionic-archive, modelled in Dafny

This project models the deterministic core of the Bitrise step that archives Ionic/Cordova
apps. It covers four parts of the step:

- **Ionic and Cordova command lines.** This covers the `ionic` builder (`Model`, its
  setters, `PlatformCommand`, `BuildCommand`), and the `platform rm`, `platform add`,
  `prepare` and `build` vectors that `main.go` assembles inline. It includes the
  `platform add` version token and the `buildIonicCommandArgs` rows of `main_test.go`.
- **JavaScript package-manager commands.** This covers choosing between yarn and npm from
  `yarn.lock`, and the argument vectors of `jsdependency`, its vendored copy, `jspackage`,
  `packageManager.go` and `npm.go`. It also covers the pin sequence (remove locally, then
  add `<dep>@<version>` globally), the test-table revision of that sequence (ignorable
  steps, the Ionic CLI alias swap, npm's `--force`) and the `ionic` to `@ionic/cli` rename
  rule.
- **iOS output directories.** This covers the legacy and cordova-ios 7 candidate pair, and
  picking the first one whose directory check finds it.
- **Artifact collection.**
  - `findArtifact`: the modification-time and extension filter over a walk.
  - `moveAndExportOutputs`: one-hop symlink resolution, the copy into the deploy
    directory, and the primary and "|"-joined list exports.
  - The per-kind export, zip and error rules of `main`.
  - The final "nothing generated" checks.
  - Reading the versions out of `ionic -v` and `cordova -v`, and the "< 3.8.0" plugin
    rule.

Everything is functional. A command is a program name plus a `seq<string>`, and errors are
`Result`/`Option` values carrying the source's messages. The outside world is passed in as
oracles:

- existence checks are `string -> PathCheck`;
- `Lstat`, `Readlink`, the copies and the env exports are fields of `FileSystem`;
- a directory walk is a given sequence of entries;
- a command run is a `Cmd -> RunResult`.

Side effects come back as a list of `Effect` values, in order.

Every `BITRISE_*_PATH_LIST` export in `main.go` passes `apkPathListEnvKey`, so ipas, dSYMs
and apps all write to `BITRISE_APK_PATH_LIST`. The model keeps this. It proves that the
value left behind is the list of the last kind exported, which is the APKs whenever any
were found.

Three facts about the code shape the model:

- `findArtifact` does not skip the inside of a matched directory. The walk callback only
  returns the error or nil, so the walk descends into `.app` and `.dSYM` bundles too.
- The test-table pin sequence puts `--force` on both npm commands: the removal and the add.
- `main` collects iOS outputs only from `platforms/ios/build/<target>`. The cordova-ios 7
  candidate is built by `getIosOutputCandidateDirsPaths` but is not used by `main`.

Three functions are known only from their test tables, because their bodies belong to
another revision of the repository: `buildIonicCommandArgs`, `PackageNameFromVersion`, and
the `InstallCommand`-returning `InstallGlobalDependencyCommand`. Each is modelled by an
assumed rule, consistent with every row, with the rows proved as lemmas; other rules would
fit the rows too:

- `BuildArgs.BuildIonicCommandArgs`: the `-- --` separator is added exactly when the
  options hold no `--` token.
- `PackageName.MajorVersion`: an optional `=`, then an optional `v`, then the leading digit
  run read as decimal.
- `InstallCommands.InstallGlobalDependencyCommand`: yarn removals are ignorable, and yarn
  also removes the other Ionic CLI name globally.

## Model

| member | source | states |
|---|---|---|
| Commands.NewFromSlice | jsdependency/jspackage.go:116-120 | an empty vector is refused; otherwise the command's argument vector is exactly the slice |
| Paths.Join | main.go:98-99 | `filepath.Join` on clean components: an empty part yields the other; otherwise the first part is kept as a prefix, one separator is added unless it already ends in one, and the result ends in the second part |
| Paths.JoinKeepsPrefix | main.go:98-99 | a prefix of the directory stays a prefix of the joined path, which is strictly longer |
| Paths.Base | main.go:98 | `filepath.Base`: never empty; the last element of a path without a trailing separator |
| Paths.BaseOfJoin | main.go:98-99 | the base of `Join(dir, name)` is `name` for a one-element name |
| Paths.CheckPath | main.go:78-82 | the go-utils existence check: an empty path is the "No path provided" error; otherwise the file system's answer |
| Paths.Ext | main.go:194 | `filepath.Ext`: empty iff the last element has no dot; otherwise a suffix of the path that starts with its only dot and holds no separator |
| Text.Title | ios_outputs.go:18 | ASCII `strings.Title`: same length; a lower-case letter after a non-word character is upper-cased, everything else kept |
| Text.Split | main.go:321 | `strings.Split`: pieces contain no separator, joined back they give the input, and the first piece ends at the first separator |
| Text.SplitOfJoin | main.go:321 | splitting the join of separator-free pieces gives the pieces back |
| Text.JoinWith | main.go:121-123 | `strings.Join`: no parts give the empty string; otherwise the result starts with the first part |
| Text.JoinWithEndsWithLast | main.go:121-123 | a join ends with its last part |
| Text.TrimSpace | main.go:323 | `strings.TrimSpace`: the result is a slice of the input with only spaces around it and no space at either end |
| Text.TrimSpaceOfPadded | main.go:168 | trimming spaces around an unpadded core gives the core back |
| Text.DecimalRoundTrip | ionic/ionic_test.go:24-78 | reading the decimal spelling of `n` gives `n` |
| PackageManagers.VerbFor | jsdependency/jspackage.go:88-97 | removal is "remove" for every manager; an add is "install" exactly for npm and "add" otherwise |
| PackageManagers.ManagerArgv | jsdependency/jspackage.go:99-115 | npm: program, verb, `-g` iff global, packages; yarn: program, `global` iff global, verb, packages; empty for any other manager |
| PackageManagers.ManagerArgvRoundTrip | jsdependency/jspackage.go:99-115 | the argument vector decodes back to its manager, verb, scope and packages |
| PackageManagers.DetectFromLockFile | jsdependency/jspackage.go:39-47 | yarn exactly when the `yarn.lock` check finds the file, npm otherwise |
| JsDependency.DetectTool | jsdependency/jspackage.go:39-47 | yarn iff `<dir>/yarn.lock` is found; npm when it is missing or the check fails |
| JsDependency.RunManagerCmd | jsdependency/jspackage.go:99-121 | a command exactly for npm and yarn, with the manager's vector; otherwise the "Command creation failed" error |
| JsDependency.Remove | jsdependency/jspackage.go:49-55 | the packages end the vector, and it decodes as a removal of exactly these packages in this scope |
| JsDependency.Add | jsdependency/jspackage.go:57-63 | the vector decodes as an install (npm) or add (yarn) of exactly these packages in this scope |
| JsDependency.RemoveAndAddDifferOnlyInVerb | jsdependency/jspackage.go:49-63 | the removal and the install vectors agree everywhere except the verb position |
| JsDependency.InstallGlobalDependency | jsdependency/jspackage.go:65-86 | an empty dependency is an error; otherwise exactly [local removal of dep, global add of dep@version] |
| VendoredJsDependency.DetectTool | vendor/github.com/bitrise-community/steps-ionic-archive/jsdependency/jspackage.go:37-45 | (yarn, no error) if found, (npm, no error) if missing, (npm, the wrapped check error) if the check fails |
| VendoredJsDependency.DetectToolAgrees | vendor/github.com/bitrise-community/steps-ionic-archive/jsdependency/jspackage.go:37-45 | the vendored detection picks the same manager as the top-level one |
| VendoredJsDependency.CreateManagerCmd | vendor/github.com/bitrise-community/steps-ionic-archive/jsdependency/jspackage.go:97-119 | a command exactly for npm and yarn, with the manager's vector |
| VendoredJsDependency.RemoveCommand | vendor/github.com/bitrise-community/steps-ionic-archive/jsdependency/jspackage.go:47-53 | decodes as a removal of exactly these packages in this scope |
| VendoredJsDependency.AddCommand | vendor/github.com/bitrise-community/steps-ionic-archive/jsdependency/jspackage.go:55-61 | decodes as an install or add of exactly these packages in this scope |
| VendoredJsDependency.RemoveAndAddCommandDifferOnlyInVerb | vendor/github.com/bitrise-community/steps-ionic-archive/jsdependency/jspackage.go:47-61 | the two vectors have the same length and differ only at the verb |
| VendoredJsDependency.InstallGlobalDependencyCommand | vendor/github.com/bitrise-community/steps-ionic-archive/jsdependency/jspackage.go:63-84 | an empty dependency is an error; otherwise two commands, local removal then global add of dep@version, with no `--force` token |
| JsPackage.DetectManager | jspackage/jspackage.go:22-31 | yarn iff `yarn.lock` is found; npm when missing or when the check fails |
| JsPackage.Remove | jspackage/jspackage.go:33-64 | runs npm or yarn with the removal vector; no error exactly when the run succeeds, otherwise the command and its outcome |
| JsPackage.Add | jspackage/jspackage.go:66-97 | runs npm with "install" or yarn with "add", same scope placement; error exactly when the run fails |
| MainPackageManager.DetectJsPackageManager | packageManager.go:22-34 | yarn iff `yarn.lock` is found; npm otherwise |
| MainPackageManager.RemoveJsPackages | packageManager.go:36-69 | the removal vector; with yarn never an error, with npm an error exactly when the run fails |
| MainPackageManager.AddJsPackages | packageManager.go:71-98 | the install/add vector; an error exactly when the run fails, for both managers |
| MainPackageManager.YarnRemovalSwallowsFailure | packageManager.go:36-69 | for the same run, both removals run the same command; with npm they report the same error; with yarn jspackage reports an error exactly when the run fails and this one never does |
| NpmCommands.NpmRemove | npm.go:10-24 | `npm remove [-g] pkgs`; no error exactly when the run succeeds |
| NpmCommands.NpmInstall | npm.go:26-40 | `npm install [-g] pkgs`; no error exactly when the run succeeds |
| NpmCommands.NpmRemoveAndInstallDifferOnlyInVerb | npm.go:10-40 | the two argument lists differ only in the verb |
| InstallCommands.IonicAlias | jsdependency/jspackage_test.go:19-58 | "ionic" and "@ionic/cli" are each other's alias; no other package has one |
| InstallCommands.InstallGlobalDependencyCommand | jsdependency/jspackage_test.go:19-90 | removal first, an alias removal only for yarn with an Ionic CLI name, the global add of dep@version last and never ignorable; every earlier step is ignorable iff yarn |
| InstallCommands.PinSequenceEndsWithTheAdd | jsdependency/jspackage_test.go:34-35 | the last step decodes as a global add of dep@version and every earlier step is a removal |
| InstallCommands.YarnIonicLatest | jsdependency/jspackage_test.go:19-38 | the yarn/ionic row, command by command |
| InstallCommands.YarnScopedIonicLatest | jsdependency/jspackage_test.go:39-58 | the yarn/@ionic/cli row |
| InstallCommands.YarnCordovaLatest | jsdependency/jspackage_test.go:59-74 | the yarn/cordova row: no alias step |
| InstallCommands.NpmScopedIonicLatest | jsdependency/jspackage_test.go:75-90 | the npm row: `--force` on both commands, none ignorable |
| Ionic.New | ionic/ionic.go:15-20 | holds the major version and leaves every other setting empty |
| Ionic.SetPlatforms | ionic/ionic.go:22-26 | replaces the platforms and keeps every other field |
| Ionic.SetConfiguration | ionic/ionic.go:28-32 | replaces the configuration and keeps every other field |
| Ionic.SetTarget | ionic/ionic.go:34-38 | replaces the target and keeps every other field |
| Ionic.SetBuildConfig | ionic/ionic.go:40-44 | replaces the build config and keeps every other field |
| Ionic.SetCustomOptions | ionic/ionic.go:46-50 | replaces the custom options and keeps every other field |
| Ionic.Prefix | ionic/ionic.go:56-60 | "ionic", then "cordova" iff the major version is above 2 |
| Ionic.PlatformCommand | ionic/ionic.go:52-65 | prefix, "platform", the sub-command, then the platforms in order |
| Ionic.PlatformCommandRoundTrip | ionic/ionic.go:52-65 | the platform command decodes back to its prefix kind, sub-command and platforms |
| Ionic.BuildArgs | ionic/ionic.go:79-90 | `--<configuration>` and `--<target>` when set, the platforms, `--buildConfig <value>` when set, in that order |
| Ionic.BuildCommand | ionic/ionic.go:67-93 | prefix, "build", then the build flags |
| Ionic.BuildCommandLength | ionic/ionic.go:77-90 | length = prefix + 1 + one per set flag + platforms + 2 for a build config |
| Ionic.CustomOptionsNeverUsed | ionic/ionic.go:47-93 | neither command depends on the custom options |
| Ionic.BuildCommandRoundTrip | ionic/ionic.go:67-93 | on unambiguous settings the build command decodes back to its settings |
| BuildArgs.AndroidTail | main_test.go:18-41 | only android gets a tail; it ends in the package-type flag, behind `--`,`--` exactly when the options hold no `--` |
| BuildArgs.BuildIonicCommandArgs | main_test.go:18-45 | the build command without its "ionic" head, then the options, then the android tail |
| BuildArgs.AndroidArgsEndWithPackageType | main_test.go:18-41 | for android the last token is the package-type flag, the options sit right before the tail, a `--` separator is always present, and the tail adds exactly one `--packageType=` flag to those of the build command and options |
| BuildArgs.NoOptionsNoAAB | main_test.go:18-21 | the NoOptions/NoAAB row |
| BuildArgs.NoOptionsAAB | main_test.go:22-25 | the NoOptions/AAB row |
| BuildArgs.SimpleOptionsAAB | main_test.go:26-29 | the SimpleOptions/AAB row |
| BuildArgs.SimpleOptionsNoAAB | main_test.go:30-33 | the SimpleOptions/NoAAB row |
| BuildArgs.SimpleOptionsPlatformAAB | main_test.go:34-37 | options that already hold `--` get only the flag |
| BuildArgs.ComplexOptionsAAB | main_test.go:38-41 | non-adjacent `--` tokens also suppress the separator |
| PackageName.StripOperator | ionic/ionic_test.go:34-63 | removes a leading "=", then a leading "v", and nothing else |
| PackageName.MajorVersion | ionic/ionic_test.go:24-84 | a major version exists exactly when "", "v", "=" or "=v" at the front is followed by a digit; otherwise an error |
| PackageName.MajorVersionOf | ionic/ionic_test.go:24-84 | any operator prefix, a digit run and a tail not starting with a digit give the digit run's decimal value, leading zeros included |
| PackageName.MajorVersionOfDecimal | ionic/ionic_test.go:24-78 | any decimal with any operator prefix and a non-digit tail reads back as that number |
| PackageName.PackageNameFromVersion | ionic/ionic_test.go:19-84 | "latest" is the scoped name; otherwise major below 6 is "ionic", the rest "@ionic/cli"; no major gives the scoped name and an error |
| PackageName.RenameBoundary | ionic/ionic_test.go:44-68 | every spelling of major 5 names the old package and of 6 the new one |
| PackageName.LatestRow | ionic/ionic_test.go:19-23 | the latest row |
| PackageName.SimpleSemverRow | ionic/ionic_test.go:24-28 | the 5.1.14 row |
| PackageName.MultiDigitRow | ionic/ionic_test.go:29-33 | the 11.1.14 row |
| PackageName.VPrefixRow | ionic/ionic_test.go:34-38 | the v5.1.14 row |
| PackageName.MajorOnlyRow | ionic/ionic_test.go:39-43 | the 7 row |
| PackageName.MajorMinorRow | ionic/ionic_test.go:44-48 | the 5.6 row |
| PackageName.WildcardMinorRow | ionic/ionic_test.go:49-53 | the 5.x row |
| PackageName.EqualsOperatorRow | ionic/ionic_test.go:54-63 | the =v5.1.14 row |
| PackageName.MoreSubversionsRow | ionic/ionic_test.go:64-68 | the 6.1.14.6.3 row |
| PackageName.VersionSuffixRow | ionic/ionic_test.go:69-73 | the 5.1.14-alpha.7 row |
| PackageName.ZeroPrefixRow | ionic/ionic_test.go:74-78 | 05.01.14 reads as major 5 |
| PackageName.InvalidFormatRow | ionic/ionic_test.go:79-84 | "beta" gives the scoped name together with an error |
| IosOutputs.SdkFor | ios_outputs.go:12-15 | "iphoneos" iff the target is "device", "iphonesimulator" otherwise |
| IosOutputs.ModernComponent | ios_outputs.go:18 | the title-cased configuration, a dash, then the sdk |
| IosOutputs.CandidateDirs | ios_outputs.go:11-24 | two paths, legacy first, both under `platforms/ios/build` |
| IosOutputs.IosBuildDir | ios_outputs.go:20-23 | the common parent of both layouts lies strictly under the working directory |
| IosOutputs.CandidateNames | ios_outputs.go:20-23 | the candidates' last elements are the target and the modern component, and the sdk is "iphoneos" iff the target is "device" |
| IosOutputs.DeviceDebugCandidates | ios_outputs_test.go:16-24 | the device/debug row |
| IosOutputs.EmulatorReleaseCandidates | ios_outputs_test.go:25-33 | the emulator/release row |
| IosOutputs.FindFirstExistingDir | ios_outputs.go:26-40 | "" iff no candidate is found; otherwise the first found candidate, skipping failed checks |
| CordovaIos.GetIOSOutputDirPath | cordovaios.go:8-22 | a loop returning the first found candidate or ""; equal to `FindFirstExistingDir` on every input |
| CordovaIos.FirstHitIsUnique | cordovaios.go:8-22 | whenever candidate `i` is the first hit, it is the result |
| StringSort.Sort | main.go:325 | the result is sorted and a permutation of the input |
| StringSort.SortedPermutationUnique | main.go:325 | two sorted permutations of the same strings are equal |
| StringSort.LexLe | main.go:325 | a prefix sorts first, and a longer string never sorts before its own prefix |
| StringSort.LexLeFirstDifference | main.go:325 | at the first differing position, the smaller byte decides the order |
| StringSort.LexLeTransitive | main.go:325 | byte-wise string order is transitive |
| StringSort.LexLeTotal | main.go:325 | byte-wise string order is total |
| StepCommands.GetField | main.go:182-186 | each of the fifteen Go field names reads its own config field; any other name reads "<invalid Value>", reflection's `String()` of a missing field |
| StepCommands.FieldTableIsComplete | main.go:182-186 | the name table reaches every config field: configs that read alike under every name are equal |
| StepCommands.TrimAll | main.go:322-324 | each piece trimmed, count kept |
| StepCommands.ParsePlatforms | main.go:321-325 | the sorted permutation of the trimmed comma-separated pieces |
| StepCommands.ParsePlatformsIsTheSortedPieces | main.go:321-325 | any sorted permutation of the trimmed pieces is the result |
| StepCommands.BothPlatforms | main.go:321-325 | "ios,android" gives ["android", "ios"] |
| StepCommands.RemoveArgv | main.go:334-341 | the inline `platform rm` vector equals the builder's `PlatformCommand("rm")` for that platform |
| StepCommands.PlatformAddToken | main.go:364-370 | "master" gives the apache git URL, another non-empty version `p@v`, none just `p` |
| StepCommands.PlatformAddTokenInjective | main.go:364-370 | different versions give different tokens |
| StepCommands.PlatformVersion | main.go:365 | ios reads `CordovaIosVersion`, android `CordovaAndroidVersion`, and an empty platform name `CordovaVersion` |
| StepCommands.IosVersionFieldName | main.go:365 | the field name built for "ios" is `CordovaIosVersion` |
| StepCommands.AndroidVersionFieldName | main.go:365 | the field name built for "android" is `CordovaAndroidVersion` |
| StepCommands.AddArgv | main.go:357-372 | the inline `platform add` vector equals the builder's `PlatformCommand("add")` with the version token |
| StepCommands.PrepareArgv | main.go:384-389 | the prefix, then `prepare --no-build` |
| StepCommands.BuildArgv | main.go:412-433 | the inline build vector equals the builder's `BuildCommand` for one platform, then the options |
| StepCommands.PlatformPhase | main.go:331-397 | without add-platform only `prepare`; with it the removals (when re-adding) then the adds, one per platform, in order |
| StepCommands.BuildPhase | main.go:411-444 | one build vector per platform, in platform order |
| Artifacts.Visit | main.go:190-197 | the walk fails exactly when an entry that is not too old carries an error |
| Artifacts.VisitStopsAtFirst | main.go:190-200 | a failing walk returns the error of the first recent entry with an error |
| Artifacts.VisitIsKeptPaths | main.go:190-196 | a walk without a stopping entry yields the kept entries' paths in walk order, as the back-to-front filter `KeptPaths` builds them |
| Artifacts.VisitKeepsExactly | main.go:190-201 | a walk without such an entry yields `KeptPaths`: one path per kept entry, every kept entry's path and nothing else |
| Artifacts.VisitAppend | main.go:190-197 | a walk over a concatenation is the first part's paths then the second's |
| Artifacts.FindArtifact | main.go:188-202 | an error exactly when some recent entry carries one |
| Artifacts.FindArtifactError | main.go:197-199 | the error is that of the first recent entry carrying one |
| Artifacts.FindArtifactKeepsMatches | main.go:191-196 | without errors: the matching recent entries' paths in walk order, one per entry, every one found and nothing else, files and directories alike |
| Artifacts.FindArtifactAppend | main.go:190-197 | results of consecutive walk segments concatenate |
| Artifacts.ExtensionIsCaseSensitive | main.go:194 | an entry with extension ".IPA" is not an "ipa" match |
| Artifacts.ResolveOutput | main.go:66-96 | a non-link is kept; a link is followed once, and refused when its target is missing or is itself a link; every failure propagates |
| Artifacts.TwoHopLinkRefused | main.go:90-92 | a link to a link gives "resolved path: <target> is still symlink" |
| Artifacts.Destination | main.go:98-99 | the deploy path is never empty; it lies under the deploy directory when one is given, is the bare base name otherwise, and keeps the resolved output's base name |
| Artifacts.CopyStep | main.go:98-109 | the copy of an output succeeds iff it resolves and its copy succeeds, and lands on the deploy directory joined with the resolved base name |
| Artifacts.CopyOutput | main.go:98-109 | succeeds exactly when resolution and the copy succeed; copies a directory as a directory, a file as a file, to the deploy directory |
| Artifacts.CopyAllCopiesEach | main.go:65-113 | all outputs copy iff each does; the i-th path and effect are those of the i-th output |
| Artifacts.CopyAllStopsAt | main.go:65-113 | the first failing output's error is the result |
| Artifacts.CopyEach | main.go:65-113 | the copy loop computes the recursive definition; on a failure it reports the copies made before the failing output |
| Artifacts.MoveAndExportOutputs | main.go:62-128 | no outputs: ("", [], no effects); otherwise one destination per output, the last is primary, and the primary then the "\|"-joined list are exported after the copies; success iff every copy and both exports succeed; the error is the first failing step's (`ExportFailure`), and a failure reports what was done before it |
| Artifacts.ExportFailure | main.go:62-128 | no failure iff every copy and both exports succeed; a failing copy's error is the failure |
| CollectOutputs.ZipKey | main.go:487-494 | only dSYMs and apps are zipped and exported again |
| CollectOutputs.ZipFailure | main.go:487-520 | nothing to zip for ipas and apks; for dSYMs and apps no failure iff the zip and the export of its path both succeed |
| CollectOutputs.ExportKind | main.go:466-524 | a failed copy or export is fatal with "Failed to export <kind>, error: ..." except for apps, which only warn and keep the copies and the primary export made before the failure; an exported ipa or apk succeeds; an exported dSYM or app fails exactly when its zip or the zip's export fails, with that step's message; otherwise the copies, the exports and for dSYM/app the zip and its export |
| CollectOutputs.Search | main.go:188-202 | an error exactly when a recent walk entry carries one; otherwise the kept paths in walk order, each with the kind's extension |
| CollectOutputs.CollectKind | main.go:461-524 | search failure gives "Failed to find <kind> in dir (<dir>), error: ..."; an empty search gives no artifact and no effect; failure exactly when the search or the export step fails, with that step's message |
| CollectOutputs.LastValue | main.go:467-545 | the value an env key is left with is its last export |
| CollectOutputs.LastValueAppend | main.go:467-545 | a later export of a key overrides an earlier one |
| CollectOutputs.FinalCheck | main.go:557-568 | no failure iff apks exist for android and apps/ipas for an ios emulator/device build; "No apk generated" first, then "no apps generated" exactly for an ios emulator build without apps, and "no ipas generated" exactly for an ios device build without ipas |
| CollectOutputs.IosOutputDir | main.go:450 | `<workDir>/platforms/ios/build` joined with the target: it lies under the working directory and its base name is the target |
| CollectOutputs.IosOutputDirIsLegacyCandidate | ios_outputs.go:11-24 | the searched iOS directory is the first, legacy, candidate |
| CollectOutputs.AndroidOutputDir | main.go:531 | `<workDir>/platforms` joined with "android": it lies under the working directory and its base name is "android" |
| CollectOutputs.CollectIos | main.go:449-528 | a missing legacy iOS dir collects nothing; a failed check is the "Failed to check if dir" error; failure exactly when the check, the ipa, dSYM or app step fails, in that order and with that message; the found lists are the searches' results |
| CollectOutputs.CollectAndroid | main.go:530-554 | apks come from `platforms/android`; failure exactly when the dir check or the apk step fails, with that message; the list key ends up holding the apk paths |
| CollectOutputs.Collect | main.go:447-568 | the iOS half fails first, then the android half, then the final check; when both halves succeed the run succeeds exactly when the final check passes; a successful run delivered what the platforms require; the list key ends up with the apk paths whenever apks were found |
| VersionText.Lines | main.go:141-143 | the lines hold no newline; a text without newline is its one line |
| VersionText.LinesOfJoin | main.go:141-143 | lines without newline or final carriage return, the last non-empty, joined by newlines with or without a final newline, are cut back into the same lines |
| VersionText.MatchAt | main.go:139-145 | the match at a position is three digit runs spelled in the line with dots between |
| VersionText.VersionFromPieces | main.go:139-145 | a well-formed version sitting in the line, not followed by a digit, is the match there |
| VersionText.LeftmostFrom | main.go:145 | the leftmost position where the pattern matches, or none |
| VersionText.FindVersion | main.go:145 | no match iff the pattern matches nowhere; otherwise the leftmost match |
| VersionText.PlainVersionFound | main.go:139-145 | a bare version reads back as itself |
| VersionText.IonicVersion | main.go:130-159 | a run error propagates; the first line with a match gives it; no line gives "output: <out>" |
| VersionText.InteractiveOutput | main.go:138 | the interactive output "[1000D[K3.2.0" gives 3.2.0 |
| VersionText.IonicMajorVersion | main.go:319 | the first segment: the decimal value of the major digit run |
| VersionText.SegmentsOfDecimals | main.go:319 | the major version of a decimal-spelled version is its first number |
| VersionText.NeedsCliPlugins | main.go:290-300 | "< 3.8.0" holds iff the major is below 3, or 3 with minor below 8 |
| VersionText.CliPluginsBoundary | main.go:290-300 | 3.7.x installs the plugins; 3.8.x and 4.0.x do not |
| VersionText.CordovaVersionText | main.go:167-168 | holds no "(" and is unpadded; the trimmed whole when there is no "(", else the trimmed text before the first "(" |
| VersionText.CordovaVersionOfPrefix | main.go:167-168 | for any text without "(", followed by "(" and anything, the result is that text trimmed |
| VersionText.CordovaVersionOfAnnotated | main.go:167-168 | a version followed by " (note)" gives the bare version |

## Left out

- Running processes is left out: stdin piping, stdout/stderr wiring, logging, `fail` and
  `os.Exit`. Command outcomes are inputs (`RunResult`), and a `fail` is an `Err`.
- The message text of `jspackage`, `packageManager.go` and `npm.go` errors is left out.
  These functions return a `CommandError` holding the command and its outcome, which is
  what those messages are built from.
- `cache.go`, `stepconf` parsing, `shellquote.Split` (the options arrive as tokens),
  `envman`, `ziputil` and the internals of `CopyDir`/`CopyFile` are left out. Each of these
  becomes an oracle or an `Effect`.
- The `ionic`/`cordova` version update phase and `ionic login` (main.go:241-270,
  302-317) are not modelled. They are package-manager calls already covered, plus a
  fixed login vector.
- The working-directory switch and restore (main.go:212-238) is left out.
- `filepath.Walk` internals are left out: traversal order, the nil-`FileInfo` case
  (main.go:191 would dereference it) and real time. A walk is a given entry sequence, with
  the modification time as an integer.
- `reflect`-based `getField` is modelled as an explicit table from the fifteen config
  field names to their values, with "<invalid Value>" for any other name.
- Full Unicode `strings.Title`, `filepath.Clean` and `Join` of empty components are left
  out. Inputs are ASCII, slash-separated, clean components.
- go-version parsing is modelled only for plain `major.minor.patch` text. `cordovaVersion`
  and `ionicVersion` return the extracted text or match, not a parsed version.
- The `bufio.Scanner` token-too-long error and 64-bit integer limits are not modelled.
- VersionText.IonicVersion: the version is the regular-expression match; go-version
  accepting it is not modelled.
- Ionic.BuildCommandRoundTrip: only holds for `Unambiguous` settings. A configuration named
  like a target, or a platform starting with `--`, makes the command line ambiguous.
- JsPackage.Remove: requires npm or yarn, because for any other manager the source
  dereferences a nil command.
- JsPackage.Add: requires npm or yarn for the same reason.
- MainPackageManager.RemoveJsPackages: requires npm or yarn, because the source has no
  branch for another manager.
- MainPackageManager.AddJsPackages: requires npm or yarn for the same reason.
- CollectOutputs.ExportKind: requires a non-empty artifact list, as `main` calls the export
  only then. The unreachable `exportedPth == ""` branch is dropped, because a destination
  is never empty.
- PackageManagers.ManagerArgvRoundTrip: holds only when the verb is not "global" and an
  npm local package list does not start with "-g"; otherwise the vector is ambiguous.
- JsDependency.Remove: the decoding clause excludes an npm local list starting with "-g",
  for the same reason.
- JsDependency.Add: the decoding clause carries the same "-g" exclusion.
- VendoredJsDependency.RemoveCommand: the decoding clause carries the same "-g" exclusion.
- VendoredJsDependency.AddCommand: the decoding clause carries the same "-g" exclusion.
- Setter aliasing (the setters return the same pointer) is left out. Setters are pure
  functions on an immutable `Model`.
