/** Finding build products and copying them to the deploy directory (main.go:62-128 and
    188-202). The directory walk, the file system, the copies and the environment export
    are inputs: a walk is the sequence of entries `filepath.Walk` visits, and the file
    system is a record of oracles. */
module Artifacts {
  import opened Results
  import opened Text
  import opened Paths

  // ---------------------------------------------------------------------------
  // findArtifact

  /** One visit of the walk callback: the path, whether it is a directory, its
      modification time, and the error the walk reports with it. */
  datatype WalkEntry = WalkEntry(path: string, isDir: bool, modTime: int, err: Option<string>)

  /** The callback ignores entries modified before the build started, errors included. */
  predicate Recent(e: WalkEntry, buildStart: int) {
    !(e.modTime < buildStart)
  }

  /** A recent entry whose extension is exactly `.<ext>`, case included; files and
      directories alike. */
  predicate Matches(e: WalkEntry, ext: string, buildStart: int) {
    Recent(e, buildStart) && Ext(e.path) == "." + ext
  }

  /** A recent entry that carries an error stops the walk with that error. */
  predicate Stops(e: WalkEntry, buildStart: int) {
    Recent(e, buildStart) && e.err.Some?
  }

  /** The callback's two verdicts on an entry, as values: keep its path, or stop. */
  function Keep(ext: string, buildStart: int): WalkEntry -> bool {
    e => Matches(e, ext, buildStart)
  }

  function Halt(buildStart: int): WalkEntry -> Option<string> {
    e => if Recent(e, buildStart) then e.err else None
  }

  /** Entry `j` stops the walk, and no entry before it does. */
  predicate FirstStop(walk: seq<WalkEntry>, halt: WalkEntry -> Option<string>, j: int) {
    && 0 <= j < |walk|
    && halt(walk[j]).Some?
    && forall k :: 0 <= k < j ==> halt(walk[k]).None?
  }

  predicate NoStop(walk: seq<WalkEntry>, halt: WalkEntry -> Option<string>) {
    forall j :: 0 <= j < |walk| ==> halt(walk[j]).None?
  }

  /** Entry `j` of the walk is kept. */
  predicate KeptAt(walk: seq<WalkEntry>, keep: WalkEntry -> bool, j: int) {
    0 <= j < |walk| && keep(walk[j])
  }

  /** `p` is the path of a kept entry. */
  predicate KeptPath(walk: seq<WalkEntry>, keep: WalkEntry -> bool, p: string) {
    exists j :: 0 <= j < |walk| && keep(walk[j]) && walk[j].path == p
  }

  /** The number of kept entries. */
  function CountKept(walk: seq<WalkEntry>, keep: WalkEntry -> bool): nat
    decreases |walk|
  {
    if walk == [] then 0
    else (if keep(walk[0]) then 1 else 0) + CountKept(walk[1..], keep)
  }

  /** The paths of the kept entries in walk order, as a filter built from the back. */
  function KeptPaths(walk: seq<WalkEntry>, keep: WalkEntry -> bool): (paths: seq<string>)
    ensures |paths| <= |walk|
    decreases |walk|
  {
    if walk == [] then []
    else
      var last := walk[|walk| - 1];
      KeptPaths(walk[..|walk| - 1], keep) + (if keep(last) then [last.path] else [])
  }

  /** A walk driven by a callback that appends the paths it keeps and returns the error
      of the entries it stops at: the kept paths in walk order, or the first stop's
      error. */
  function Visit(walk: seq<WalkEntry>, keep: WalkEntry -> bool, halt: WalkEntry -> Option<string>): (r: Result<seq<string>>)
    ensures r.Err? <==> !NoStop(walk, halt)
    decreases |walk|
  {
    if walk == [] then Ok([])
    else if halt(walk[0]).Some? then Err(halt(walk[0]).value)
    else
      var rest := Visit(walk[1..], keep, halt);
      NoStopOfTail(walk, halt);
      if rest.Err? then rest
      else if keep(walk[0]) then Ok([walk[0].path] + rest.value)
      else rest
  }

  lemma NoStopOfTail(walk: seq<WalkEntry>, halt: WalkEntry -> Option<string>)
    requires walk != [] && halt(walk[0]).None?
    ensures NoStop(walk, halt) <==> NoStop(walk[1..], halt)
  {
    if !NoStop(walk, halt) {
      var j :| 0 <= j < |walk| && halt(walk[j]).Some?;
      assert walk[1..][j - 1] == walk[j];
    }
  }

  /** One step of a walk that neither stops at its first entry nor later. */
  lemma VisitCons(walk: seq<WalkEntry>, keep: WalkEntry -> bool, halt: WalkEntry -> Option<string>)
    requires walk != [] && halt(walk[0]).None? && Visit(walk[1..], keep, halt).Ok?
    ensures Visit(walk, keep, halt) == Ok((if keep(walk[0]) then [walk[0].path] else []) + Visit(walk[1..], keep, halt).value)
  {
    if !keep(walk[0]) {
      assert [] + Visit(walk[1..], keep, halt).value == Visit(walk[1..], keep, halt).value;
    }
  }

  /** A failed walk fails with the error of its first stopping entry. */
  lemma {:induction false} VisitStopsAtFirst(walk: seq<WalkEntry>, keep: WalkEntry -> bool, halt: WalkEntry -> Option<string>)
    requires !NoStop(walk, halt)
    ensures exists j :: FirstStop(walk, halt, j) && Visit(walk, keep, halt) == Err(halt(walk[j]).value)
    decreases |walk|
  {
    if halt(walk[0]).Some? {
      assert FirstStop(walk, halt, 0);
    } else {
      var tail := walk[1..];
      NoStopOfTail(walk, halt);
      VisitStopsAtFirst(tail, keep, halt);
      var j :| FirstStop(tail, halt, j) && Visit(tail, keep, halt) == Err(halt(tail[j]).value);
      assert walk[j + 1] == tail[j];
      forall k | 0 <= k < j + 1 ensures halt(walk[k]).None? {
        if k > 0 { assert walk[k] == tail[k - 1]; }
      }
      assert FirstStop(walk, halt, j + 1);
    }
  }

  /** A walk that never stops yields exactly the kept paths, in walk order. */
  lemma {:induction false} VisitIsKeptPaths(walk: seq<WalkEntry>, keep: WalkEntry -> bool, halt: WalkEntry -> Option<string>)
    requires NoStop(walk, halt)
    ensures Visit(walk, keep, halt) == Ok(KeptPaths(walk, keep))
    decreases |walk|
  {
    if walk != [] {
      var n := |walk| - 1;
      var init := walk[..n];
      var last := walk[n];
      assert NoStop(init, halt) by {
        forall j | 0 <= j < |init| ensures halt(init[j]).None? {
          assert init[j] == walk[j];
        }
      }
      VisitIsKeptPaths(init, keep, halt);
      assert [last][1..] == [];
      assert Visit([last][1..], keep, halt) == Ok([]);
      VisitCons([last], keep, halt);
      var tail := if keep(last) then [last.path] else [];
      assert tail + [] == tail;
      VisitAppend(init, [last], keep, halt);
      assert init + [last] == walk;
    }
  }

  /** A walk that never stops keeps one path per kept entry, every kept entry's path,
      and nothing but kept entries' paths. */
  lemma {:induction false} VisitKeepsExactly(walk: seq<WalkEntry>, keep: WalkEntry -> bool, halt: WalkEntry -> Option<string>)
    requires NoStop(walk, halt)
    ensures Visit(walk, keep, halt).Ok?
    ensures var found := Visit(walk, keep, halt).value;
      && found == KeptPaths(walk, keep)
      && |found| == CountKept(walk, keep)
      && (forall j :: KeptAt(walk, keep, j) ==> walk[j].path in found)
      && (forall i :: 0 <= i < |found| ==> KeptPath(walk, keep, found[i]))
    decreases |walk|
  {
    if walk != [] {
      var tail := walk[1..];
      NoStopOfTail(walk, halt);
      VisitKeepsExactly(tail, keep, halt);
      VisitIsKeptPaths(walk, keep, halt);
      var rest := Visit(tail, keep, halt).value;
      VisitCons(walk, keep, halt);
      var found := Visit(walk, keep, halt).value;
      assert found == (if keep(walk[0]) then [walk[0].path] else []) + rest;
      forall j | KeptAt(walk, keep, j) ensures walk[j].path in found {
        if j > 0 {
          assert walk[j] == tail[j - 1];
          assert KeptAt(tail, keep, j - 1);
        }
      }
      forall i | 0 <= i < |found| ensures KeptPath(walk, keep, found[i]) {
        if keep(walk[0]) && i == 0 {
          assert KeptAt(walk, keep, 0) && walk[0].path == found[i];
        } else {
          var i' := if keep(walk[0]) then i - 1 else i;
          assert found[i] == rest[i'];
          assert KeptPath(tail, keep, rest[i']);
          var j :| KeptAt(tail, keep, j) && tail[j].path == rest[i'];
          assert walk[j + 1] == tail[j];
          assert KeptAt(walk, keep, j + 1) && walk[j + 1].path == found[i];
        }
      }
    } else {
      assert Visit(walk, keep, halt) == Ok([]);
    }
  }

  /** The walk result splits: what a longer walk keeps is what its first part keeps
      followed by what the rest keeps. */
  lemma {:induction false} VisitAppend(w1: seq<WalkEntry>, w2: seq<WalkEntry>, keep: WalkEntry -> bool, halt: WalkEntry -> Option<string>)
    requires Visit(w1, keep, halt).Ok?
    ensures Visit(w1 + w2, keep, halt)
      == match Visit(w2, keep, halt)
         case Ok(m2) => Ok(Visit(w1, keep, halt).value + m2)
         case Err(e) => Err(e)
    decreases |w1|
  {
    if w1 == [] {
      assert w1 + w2 == w2;
      assert Visit(w1, keep, halt).value == [];
      if Visit(w2, keep, halt).Ok? {
        assert [] + Visit(w2, keep, halt).value == Visit(w2, keep, halt).value;
      }
    } else {
      var w := w1 + w2;
      assert w[0] == w1[0];
      assert w[1..] == w1[1..] + w2;
      var head := if keep(w1[0]) then [w1[0].path] else [];
      assert halt(w1[0]).None?;
      assert Visit(w1[1..], keep, halt).Ok?;
      VisitAppend(w1[1..], w2, keep, halt);
      var rest1 := Visit(w1[1..], keep, halt).value;
      VisitCons(w1, keep, halt);
      match Visit(w2, keep, halt)
      case Err(e) => {
        assert Visit(w1[1..] + w2, keep, halt) == Err(e);
      }
      case Ok(m2) => {
        assert Visit(w[1..], keep, halt) == Ok(rest1 + m2);
        VisitCons(w, keep, halt);
        assert head + (rest1 + m2) == (head + rest1) + m2;
      }
    }
  }

  /** `findArtifact`: the paths of the recent entries with extension `.<ext>`, in walk
      order; the walk goes on into matched and old directories alike, since the
      callback never skips. The first recent entry with an error ends the walk, and that
      error is the result. */
  function FindArtifact(walk: seq<WalkEntry>, ext: string, buildStart: int): (r: Result<seq<string>>)
    ensures r.Err? <==> exists j :: 0 <= j < |walk| && Stops(walk[j], buildStart)
  {
    Visit(walk, Keep(ext, buildStart), Halt(buildStart))
  }

  /** Entry `j` is the first recent entry that carries an error. */
  predicate FirstError(walk: seq<WalkEntry>, buildStart: int, j: int) {
    && 0 <= j < |walk|
    && Stops(walk[j], buildStart)
    && forall k :: 0 <= k < j ==> !Stops(walk[k], buildStart)
  }

  /** An error is the one of the first recent entry that carries one. */
  lemma FindArtifactError(walk: seq<WalkEntry>, ext: string, buildStart: int)
    requires FindArtifact(walk, ext, buildStart).Err?
    ensures exists j :: FirstError(walk, buildStart, j) && FindArtifact(walk, ext, buildStart).error == walk[j].err.value
  {
    VisitStopsAtFirst(walk, Keep(ext, buildStart), Halt(buildStart));
    var j :| FirstStop(walk, Halt(buildStart), j) && FindArtifact(walk, ext, buildStart) == Err(Halt(buildStart)(walk[j]).value);
    assert FirstError(walk, buildStart, j);
  }

  /** A kept path of the search is the path of a matching entry. */
  lemma KeptPathMatches(walk: seq<WalkEntry>, ext: string, buildStart: int, p: string)
    requires KeptPath(walk, Keep(ext, buildStart), p)
    ensures exists j :: 0 <= j < |walk| && Matches(walk[j], ext, buildStart) && walk[j].path == p
  {
    var j :| 0 <= j < |walk| && Keep(ext, buildStart)(walk[j]) && walk[j].path == p;
    assert Matches(walk[j], ext, buildStart);
  }

  /** Without an error, the result is the paths of the matching entries in walk order:
      one per matching entry, every matching entry's path, and nothing else. */
  lemma FindArtifactKeepsMatches(walk: seq<WalkEntry>, ext: string, buildStart: int)
    requires forall j :: 0 <= j < |walk| ==> !Stops(walk[j], buildStart)
    ensures FindArtifact(walk, ext, buildStart).Ok?
    ensures FindArtifact(walk, ext, buildStart).value == KeptPaths(walk, Keep(ext, buildStart))
    ensures |FindArtifact(walk, ext, buildStart).value| == CountKept(walk, Keep(ext, buildStart))
    ensures forall j :: 0 <= j < |walk| && Matches(walk[j], ext, buildStart) ==> walk[j].path in FindArtifact(walk, ext, buildStart).value
    ensures forall i :: 0 <= i < |FindArtifact(walk, ext, buildStart).value| ==>
      exists j :: 0 <= j < |walk| && Matches(walk[j], ext, buildStart) && walk[j].path == FindArtifact(walk, ext, buildStart).value[i]
  {
    var keep := Keep(ext, buildStart);
    assert NoStop(walk, Halt(buildStart)) by {
      forall j | 0 <= j < |walk| ensures Halt(buildStart)(walk[j]).None? {
        assert !Stops(walk[j], buildStart);
      }
    }
    VisitKeepsExactly(walk, keep, Halt(buildStart));
    forall j | 0 <= j < |walk| && Matches(walk[j], ext, buildStart) ensures walk[j].path in FindArtifact(walk, ext, buildStart).value {
      assert KeptAt(walk, keep, j);
    }
    forall i | 0 <= i < |FindArtifact(walk, ext, buildStart).value|
      ensures exists j :: 0 <= j < |walk| && Matches(walk[j], ext, buildStart) && walk[j].path == FindArtifact(walk, ext, buildStart).value[i]
    {
      KeptPathMatches(walk, ext, buildStart, FindArtifact(walk, ext, buildStart).value[i]);
    }
  }

  /** The search splits over a walk cut in two. */
  lemma FindArtifactAppend(w1: seq<WalkEntry>, w2: seq<WalkEntry>, ext: string, buildStart: int)
    requires FindArtifact(w1, ext, buildStart).Ok?
    ensures FindArtifact(w1 + w2, ext, buildStart)
      == match FindArtifact(w2, ext, buildStart)
         case Ok(m2) => Ok(FindArtifact(w1, ext, buildStart).value + m2)
         case Err(e) => Err(e)
  {
    VisitAppend(w1, w2, Keep(ext, buildStart), Halt(buildStart));
  }

  /** The extension match is case-sensitive: an entry whose extension is `.IPA`, such as
      `build/App.IPA`, is not an `ipa`. */
  lemma ExtensionIsCaseSensitive(p: string, t: int)
    requires Ext(p) == ".IPA"
    ensures FindArtifact([WalkEntry(p, false, t, None)], "ipa", t) == Ok([])
  {
    var e := WalkEntry(p, false, t, None);
    UpperIpaIsNotIpa();
    SkippedEntry(e, "ipa", t);
  }

  lemma UpperIpaIsNotIpa()
    ensures ".IPA" != "." + "ipa"
  {
    assert ".IPA"[1] != ("." + "ipa")[1];
  }

  lemma SkippedEntry(e: WalkEntry, ext: string, t: int)
    requires !Matches(e, ext, t) && e.err == None
    ensures FindArtifact([e], ext, t) == Ok([])
  {
    assert [e][1..] == [];
    assert Visit([e][1..], Keep(ext, t), Halt(t)) == Ok([]);
    VisitCons([e], Keep(ext, t), Halt(t));
  }

  lemma UpperCaseIpaExt()
    ensures Ext("build/App.IPA") == ".IPA"
  {
    IpaLastElement();
    IpaFromLastDot();
  }

  lemma IpaLastElement()
    ensures LastElement("build/App.IPA") == "App.IPA"
  {
    var p: string, name: string := "build/App.IPA", "App.IPA";
    assert p[|p| - |name|..] == name;
    assert p[|p| - |name| - 1] == Separator;
    LastElementOfSuffix(p, name);
  }

  lemma IpaFromLastDot()
    ensures FromLastDot("App.IPA") == ".IPA"
  {
    var last: string := "App.IPA";
    var e := FromLastDot(last);
    assert last[3] == '.';
    assert forall i :: 0 <= i < |last| && i != 3 ==> last[i] != '.';
    assert e == last[3..];
  }

  // ---------------------------------------------------------------------------
  // moveAndExportOutputs

  /** What `os.Lstat` reports about a path. */
  datatype FileInfo = FileInfo(isSymlink: bool, isDir: bool)

  /** The file system and the environment as the step sees them. */
  datatype FileSystem = FileSystem(
    lstat: string -> Result<FileInfo>,
    readlink: string -> Result<string>,
    pathExists: string -> PathCheck,
    copyDir: (string, string) -> Option<string>,
    copyFile: (string, string) -> Option<string>,
    setEnv: (string, string) -> Option<string>)

  /** A side effect of exporting, in the order performed. */
  datatype Effect =
    | CopiedDir(src: string, dst: string)
    | CopiedFile(src: string, dst: string)
    | Zipped(src: string, dst: string)
    | Exported(key: string, value: string)

  /** A resolved output: the path to copy and what `Lstat` said about it. */
  datatype Resolved = Resolved(path: string, info: FileInfo)

  /** Follows a symlinked output one hop: the link target must exist and must not be a
      symlink itself. Other outputs stay as they are. */
  function ResolveOutput(fs: FileSystem, output: string): (r: Result<Resolved>)
    ensures r.Ok? ==> !r.value.info.isSymlink
    ensures fs.lstat(output).Err? ==> r == Err(fs.lstat(output).error)
    ensures fs.lstat(output).Ok? && !fs.lstat(output).value.isSymlink ==> r == Ok(Resolved(output, fs.lstat(output).value))
    ensures fs.lstat(output).Ok? && fs.lstat(output).value.isSymlink ==>
      (r.Ok? <==> fs.readlink(output).Ok? && CheckPath(fs.pathExists, fs.readlink(output).value) == Exists
                  && fs.lstat(fs.readlink(output).value).Ok? && !fs.lstat(fs.readlink(output).value).value.isSymlink)
    ensures fs.lstat(output).Ok? && fs.lstat(output).value.isSymlink && r.Ok? ==>
      r.value.path == fs.readlink(output).value
  {
    var info :- fs.lstat(output);
    if !info.isSymlink then Ok(Resolved(output, info))
    else
      var target :- fs.readlink(output);
      match CheckPath(fs.pathExists, target)
      case CheckFailed(reason) => Err(reason)
      case Missing => Err("resolved path: " + target + " does not exist")
      case Exists =>
        var targetInfo :- fs.lstat(target);
        if targetInfo.isSymlink then Err("resolved path: " + target + " is still symlink")
        else Ok(Resolved(target, targetInfo))
  }

  /** A symlink to a symlink is refused, whatever the second link points to. */
  lemma TwoHopLinkRefused(fs: FileSystem, output: string)
    requires fs.lstat(output).Ok? && fs.lstat(output).value.isSymlink
    requires fs.readlink(output).Ok? && CheckPath(fs.pathExists, fs.readlink(output).value) == Exists
    requires fs.lstat(fs.readlink(output).value).Ok? && fs.lstat(fs.readlink(output).value).value.isSymlink
    ensures ResolveOutput(fs, output) == Err("resolved path: " + fs.readlink(output).value + " is still symlink")
  {
  }

  /** Where an output is copied to: the deploy directory and the resolved base name. */
  function Destination(deployDir: string, resolved: string): (d: string)
    ensures d != []
    ensures deployDir != [] ==> |deployDir| < |d| && d[..|deployDir|] == deployDir
    ensures deployDir == [] ==> d == Base(resolved)
    ensures Separator !in Base(resolved) ==> Base(d) == Base(resolved)
  {
    var name := Base(resolved);
    if Separator !in name then
      BaseOfJoin(deployDir, name);
      Join(deployDir, name)
    else Join(deployDir, name)
  }

  /** What the copy of a resolved output into the deploy directory reports: a directory
      is copied as a tree, anything else as a file. */
  function CopyFailure(fs: FileSystem, src: Resolved, deployDir: string): Option<string> {
    if src.info.isDir then fs.copyDir(src.path, Destination(deployDir, src.path))
    else fs.copyFile(src.path, Destination(deployDir, src.path))
  }

  /** One output: resolve it, then copy it (as a directory or as a file) into the deploy
      directory under its base name. */
  function CopyOutput(fs: FileSystem, deployDir: string, output: string): (r: Result<(string, Effect)>)
    ensures r.Ok? <==> ResolveOutput(fs, output).Ok? && CopyFailure(fs, ResolveOutput(fs, output).value, deployDir).None?
    ensures r.Ok? ==> var src := ResolveOutput(fs, output).value;
      && r.value.0 == Destination(deployDir, src.path)
      && r.value.1 == (if src.info.isDir then CopiedDir(src.path, r.value.0) else CopiedFile(src.path, r.value.0))
  {
    var src :- ResolveOutput(fs, output);
    var dst := Destination(deployDir, src.path);
    if src.info.isDir then
      match fs.copyDir(src.path, dst)
      case Some(e) => Err(e)
      case None => Ok((dst, CopiedDir(src.path, dst)))
    else
      match fs.copyFile(src.path, dst)
      case Some(e) => Err(e)
      case None => Ok((dst, CopiedFile(src.path, dst)))
  }

  /** The copy of one output as a value, so the loop below can be reasoned about
      without looking into the file system. */
  function CopyStep(fs: FileSystem, deployDir: string): (step: string -> Result<(string, Effect)>)
    ensures forall output :: step(output).Ok? <==>
      ResolveOutput(fs, output).Ok? && CopyFailure(fs, ResolveOutput(fs, output).value, deployDir).None?
    ensures forall output :: step(output).Ok? ==>
      step(output).value.0 == Destination(deployDir, ResolveOutput(fs, output).value.path)
  {
    output => CopyOutput(fs, deployDir, output)
  }

  /** A copied output always lands on a non-empty path. */
  lemma CopyDestinationNotEmpty(fs: FileSystem, deployDir: string, output: string)
    ensures CopyStep(fs, deployDir)(output).Ok? ==> CopyStep(fs, deployDir)(output).value.0 != ""
  {
  }

  /** Every output copied without error. */
  predicate AllCopied(step: string -> Result<(string, Effect)>, outputs: seq<string>) {
    forall i :: 0 <= i < |outputs| ==> step(outputs[i]).Ok?
  }

  /** The copy loop as a recursive definition over the outputs, last output last: the
      destinations and the copy effects, or the error of the first output that failed. */
  function CopyAll(step: string -> Result<(string, Effect)>, outputs: seq<string>): Result<(seq<string>, seq<Effect>)>
    decreases |outputs|
  {
    if outputs == [] then Ok(([], []))
    else
      var done :- CopyAll(step, outputs[..|outputs| - 1]);
      var last :- step(outputs[|outputs| - 1]);
      Ok((done.0 + [last.0], done.1 + [last.1]))
  }

  /** `done` holds, for each output in order, its destination and its copy effect. */
  predicate CopiedInOrder(step: string -> Result<(string, Effect)>, outputs: seq<string>, done: (seq<string>, seq<Effect>))
    requires AllCopied(step, outputs)
  {
    && |done.0| == |outputs| && |done.1| == |outputs|
    && forall i :: 0 <= i < |outputs| ==> done.0[i] == step(outputs[i]).value.0 && done.1[i] == step(outputs[i]).value.1
  }

  /** The loop succeeds exactly when every output is copied, and then output `i` is
      copied to destination `i` by effect `i`. */
  lemma {:induction false} CopyAllCopiesEach(step: string -> Result<(string, Effect)>, outputs: seq<string>)
    ensures CopyAll(step, outputs).Ok? <==> AllCopied(step, outputs)
    ensures CopyAll(step, outputs).Ok? ==> CopiedInOrder(step, outputs, CopyAll(step, outputs).value)
    decreases |outputs|
  {
    if outputs != [] {
      var n := |outputs| - 1;
      var init := outputs[..n];
      CopyAllCopiesEach(step, init);
      if AllCopied(step, outputs) {
        assert AllCopied(step, init) by {
          forall i | 0 <= i < |init| ensures step(init[i]).Ok? {
            assert init[i] == outputs[i];
          }
        }
        var prefix := CopyAll(step, init).value;
        var whole := CopyAll(step, outputs);
        assert whole == Ok((prefix.0 + [step(outputs[n]).value.0], prefix.1 + [step(outputs[n]).value.1]));
        forall i | 0 <= i < n
          ensures whole.value.0[i] == step(outputs[i]).value.0 && whole.value.1[i] == step(outputs[i]).value.1
        {
          assert init[i] == outputs[i];
        }
      } else {
        var i :| 0 <= i < |outputs| && step(outputs[i]).Err?;
        if i < n {
          assert init[i] == outputs[i];
        }
      }
    }
  }

  /** When the copies of a prefix succeed and the next output fails, the whole loop fails
      with that output's error. */
  lemma {:induction false} CopyAllStopsAt(step: string -> Result<(string, Effect)>, outputs: seq<string>, i: int)
    requires 0 <= i < |outputs|
    requires CopyAll(step, outputs[..i]).Ok? && step(outputs[i]).Err?
    ensures CopyAll(step, outputs) == Err(step(outputs[i]).error)
    decreases |outputs|
  {
    if i + 1 == |outputs| {
      assert outputs[..|outputs| - 1] == outputs[..i];
    } else {
      var init := outputs[..|outputs| - 1];
      assert init[..i] == outputs[..i];
      CopyAllStopsAt(step, init, i);
    }
  }

  /** The result of an export: the primary path, every destination, and the effects. */
  datatype Export = Export(primary: string, paths: seq<string>, effects: seq<Effect>)

  /** Output `i` is the first whose copy fails: every output before it was copied. */
  predicate FailsAt(step: string -> Result<(string, Effect)>, outputs: seq<string>, i: int) {
    0 <= i < |outputs| && CopyAll(step, outputs[..i]).Ok? && step(outputs[i]).Err?
  }

  /** The copy loop of `moveAndExportOutputs`, output by output, stopping at the first
      failure; `performed` is what was copied before it stopped. */
  method CopyEach(step: string -> Result<(string, Effect)>, outputs: seq<string>)
    returns (r: Result<(seq<string>, seq<Effect>)>, performed: seq<Effect>)
    ensures r == CopyAll(step, outputs)
    ensures r.Ok? ==> performed == r.value.1
    ensures r.Err? ==> exists i :: FailsAt(step, outputs, i) && performed == CopyAll(step, outputs[..i]).value.1
  {
    var paths: seq<string> := [];
    var copies: seq<Effect> := [];
    var i := 0;
    while i < |outputs|
      invariant 0 <= i <= |outputs|
      invariant CopyAll(step, outputs[..i]) == Ok((paths, copies))
    {
      assert outputs[..i + 1][..i] == outputs[..i];
      var copied := step(outputs[i]);
      if copied.Err? {
        CopyAllStopsAt(step, outputs, i);
        assert FailsAt(step, outputs, i);
        return Err(copied.error), copies;
      }
      paths := paths + [copied.value.0];
      copies := copies + [copied.value.1];
      i := i + 1;
    }
    assert outputs[..i] == outputs;
    return Ok((paths, copies)), copies;
  }

  /** After copying at least one output, the last destination is a real path. */
  lemma LastDestinationNotEmpty(fs: FileSystem, deployDir: string, outputs: seq<string>)
    requires outputs != [] && CopyAll(CopyStep(fs, deployDir), outputs).Ok?
    ensures var paths := CopyAll(CopyStep(fs, deployDir), outputs).value.0;
      |paths| == |outputs| && paths[|paths| - 1] != ""
  {
    CopyAllCopiesEach(CopyStep(fs, deployDir), outputs);
    CopyDestinationNotEmpty(fs, deployDir, outputs[|outputs| - 1]);
  }

  /** Every output is copied and, when there is one, both exports succeed. */
  predicate ExportsAll(fs: FileSystem, deployDir: string, envKey: string, envListKey: string, outputs: seq<string>) {
    var copied := CopyAll(CopyStep(fs, deployDir), outputs);
    && copied.Ok?
    && (outputs != [] ==>
          var paths := copied.value.0;
          && paths != []
          && fs.setEnv(envKey, paths[|paths| - 1]).None?
          && fs.setEnv(envListKey, JoinWith(paths, "|")).None?)
  }

  /** The error `moveAndExportOutputs` returns, if any: the first failing copy's, else the
      primary export's, else the list export's. */
  function ExportFailure(fs: FileSystem, deployDir: string, envKey: string, envListKey: string, outputs: seq<string>): (failure: Option<string>)
    ensures failure.None? <==> ExportsAll(fs, deployDir, envKey, envListKey, outputs)
    ensures CopyAll(CopyStep(fs, deployDir), outputs).Err? ==> failure == Some(CopyAll(CopyStep(fs, deployDir), outputs).error)
  {
    var copied := CopyAll(CopyStep(fs, deployDir), outputs);
    if copied.Err? then Some(copied.error)
    else if outputs == [] then None
    else
      LastDestinationNotEmpty(fs, deployDir, outputs);
      var paths := copied.value.0;
      var primaryFailure := fs.setEnv(envKey, paths[|paths| - 1]);
      if primaryFailure.Some? then primaryFailure else fs.setEnv(envListKey, JoinWith(paths, "|"))
  }

  /** What a failed export leaves behind: the copies made before the failing output, or
      all the copies when an export failed, followed by the primary export when only the
      list export failed. */
  predicate LeftAfterFailure(fs: FileSystem, deployDir: string, envKey: string, envListKey: string, outputs: seq<string>, performed: seq<Effect>) {
    var step := CopyStep(fs, deployDir);
    var copied := CopyAll(step, outputs);
    if copied.Err? then
      exists i :: 0 <= i < |outputs| && FailsAt(step, outputs, i) && performed == CopyAll(step, outputs[..i]).value.1
    else if copied.value.0 == [] then
      performed == []
    else
      var primary := copied.value.0[|copied.value.0| - 1];
      if fs.setEnv(envKey, primary).Some? then performed == copied.value.1
      else performed == copied.value.1 + [Exported(envKey, primary)]
  }

  /** `moveAndExportOutputs`: copies every output in order, then exports the last
      destination under `envKey` and all destinations, joined by "|", under `envListKey`.
      No outputs means no export and an empty result; the first failure ends it, and
      `performed` is what had been done by then. */
  method MoveAndExportOutputs(outputs: seq<string>, deployDir: string, envKey: string, envListKey: string, fs: FileSystem)
    returns (r: Result<Export>, performed: seq<Effect>)
    ensures outputs == [] ==> r == Ok(Export("", [], []))
    ensures CopyAll(CopyStep(fs, deployDir), outputs).Err? ==> r == Err(CopyAll(CopyStep(fs, deployDir), outputs).error)
    ensures r.Ok? <==> ExportsAll(fs, deployDir, envKey, envListKey, outputs)
    ensures r.Err? ==> r == Err(ExportFailure(fs, deployDir, envKey, envListKey, outputs).value)
    ensures r.Ok? ==> CopyAll(CopyStep(fs, deployDir), outputs).Ok? && r.value.paths == CopyAll(CopyStep(fs, deployDir), outputs).value.0
    ensures r.Ok? ==> |r.value.paths| == |outputs|
    ensures r.Ok? && outputs != [] ==>
      && r.value.primary != ""
      && r.value.primary == r.value.paths[|r.value.paths| - 1]
      && r.value.effects == CopyAll(CopyStep(fs, deployDir), outputs).value.1
           + [Exported(envKey, r.value.primary), Exported(envListKey, JoinWith(r.value.paths, "|"))]
    ensures r.Ok? ==> performed == r.value.effects
    ensures r.Err? ==> LeftAfterFailure(fs, deployDir, envKey, envListKey, outputs, performed)
  {
    var copied, copies := CopyEach(CopyStep(fs, deployDir), outputs);
    if copied.Err? {
      return Err(copied.error), copies;
    }
    var paths := copied.value.0;
    if outputs == [] {
      return Ok(Export("", [], [])), [];
    }
    LastDestinationNotEmpty(fs, deployDir, outputs);
    var outputToExport := paths[|paths| - 1];
    var list := JoinWith(paths, "|");
    var primaryFailure := fs.setEnv(envKey, outputToExport);
    if primaryFailure.Some? {
      return Err(primaryFailure.value), copies;
    }
    var listFailure := fs.setEnv(envListKey, list);
    if listFailure.Some? {
      return Err(listFailure.value), copies + [Exported(envKey, outputToExport)];
    }
    performed := copies + [Exported(envKey, outputToExport), Exported(envListKey, list)];
    r := Ok(Export(outputToExport, paths, performed));
  }

}
