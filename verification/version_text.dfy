/** Reading the tool versions out of command output (main.go:130-175). The outputs are
    inputs here, already trimmed as `RunAndReturnTrimmedCombinedOutput` returns them; the
    parse of the extracted text by hashicorp's go-version is not part of this model. */
module VersionText {
  import opened Results
  import opened Text

  // ---------------------------------------------------------------------------
  // Lines, as bufio.ScanLines cuts them

  function DropCarriageReturn(line: string): (r: string)
    ensures line != [] && line[|line| - 1] == '\r' ==> r == line[..|line| - 1]
    ensures !(line != [] && line[|line| - 1] == '\r') ==> r == line
  {
    if line != [] && line[|line| - 1] == '\r' then line[..|line| - 1] else line
  }

  /** The lines of a text: cut at every newline, with a carriage return before it
      dropped; a final newline does not start another line, and the empty text has
      none. */
  function Lines(s: string): (lines: seq<string>)
    ensures forall i :: 0 <= i < |lines| ==> '\n' !in lines[i]
    ensures s == [] ==> lines == []
    ensures s != [] && '\n' !in s ==> lines == [DropCarriageReturn(s)]
  {
    KeepLines(Split(s, '\n'))
  }

  /** The pieces of a text cut at its newlines, as lines: an empty last piece (after a
      final newline) is dropped, and each piece loses a final carriage return. */
  function KeepLines(pieces: seq<string>): (lines: seq<string>)
    requires pieces != []
    requires forall i :: 0 <= i < |pieces| ==> '\n' !in pieces[i]
    ensures forall i :: 0 <= i < |lines| ==> '\n' !in lines[i]
    ensures pieces == [[]] ==> lines == []
    ensures |pieces| == 1 && pieces[0] != [] ==> lines == [DropCarriageReturn(pieces[0])]
  {
    var kept := if pieces[|pieces| - 1] == [] then pieces[..|pieces| - 1] else pieces;
    seq(|kept|, i requires 0 <= i < |kept| => DropCarriageReturn(kept[i]))
  }

  /** A line as the scanner hands it back: no newline in it and no carriage return at
      its end. */
  predicate PlainLine(line: string) {
    '\n' !in line && (line == [] || line[|line| - 1] != '\r')
  }

  /** Plain lines come through unchanged, with or without an empty piece after them. */
  lemma KeepPlainLines(ls: seq<string>)
    requires ls != [] && ls[|ls| - 1] != []
    requires forall i :: 0 <= i < |ls| ==> PlainLine(ls[i])
    ensures forall i :: 0 <= i < |ls| ==> '\n' !in ls[i]
    ensures forall i :: 0 <= i < |ls + [""]| ==> '\n' !in (ls + [""])[i]
    ensures KeepLines(ls) == ls
    ensures KeepLines(ls + [""]) == ls
  {
    var padded := ls + [""];
    forall i | 0 <= i < |padded| ensures '\n' !in padded[i] {
      if i < |ls| {
        assert padded[i] == ls[i] && PlainLine(ls[i]);
      }
    }
    assert padded[..|padded| - 1] == ls;
    var lines := KeepLines(ls);
    assert lines == seq(|ls|, i requires 0 <= i < |ls| => DropCarriageReturn(ls[i]));
    forall i | 0 <= i < |ls| ensures lines[i] == ls[i] {
      assert PlainLine(ls[i]);
    }
  }

  /** Lines joined by newlines, with or without a final newline, are cut back into the
      same lines, provided the last of them is not empty. */
  lemma LinesOfJoin(ls: seq<string>)
    requires ls != [] && ls[|ls| - 1] != []
    requires forall i :: 0 <= i < |ls| ==> PlainLine(ls[i])
    ensures Lines(JoinWith(ls, "\n")) == ls
    ensures Lines(JoinWith(ls, "\n") + "\n") == ls
  {
    KeepPlainLines(ls);
    SplitOfJoin(ls, '\n');
    SplitOfJoin(ls + [""], '\n');
    JoinWithEmptyLast(ls, "\n");
  }

  // ---------------------------------------------------------------------------
  // The pattern \d+\.\d+\.\d+

  /** A version in the output: three runs of decimal digits. */
  datatype VersionMatch = VersionMatch(major: string, minor: string, patch: string)

  function MatchText(m: VersionMatch): string {
    m.major + "." + m.minor + "." + m.patch
  }

  predicate WellFormed(m: VersionMatch) {
    && m.major != [] && AllDigits(m.major)
    && m.minor != [] && AllDigits(m.minor)
    && m.patch != [] && AllDigits(m.patch)
  }

  /** The digits from `p` on. */
  function Run(line: string, p: nat): (n: nat)
    requires p <= |line|
    ensures p + n <= |line|
  {
    LeadingDigits(line[p..])
  }

  /** The pattern matches at `p`. Since each `\d+` is greedy and must be followed by a
      dot or end the match, a match starting at `p` takes the whole digit run from `p`,
      a dot, the whole next run, a dot and the whole third run. */
  predicate VersionAt(line: string, p: nat)
    requires p <= |line|
  {
    var a := Run(line, p);
    && a > 0 && p + a < |line| && line[p + a] == '.'
    && var b := Run(line, p + a + 1);
    && b > 0 && p + a + 1 + b < |line| && line[p + a + 1 + b] == '.'
    && Run(line, p + a + b + 2) > 0
  }

  /** The match at `p`, field by field. */
  function MatchAt(line: string, p: nat): (m: VersionMatch)
    requires p <= |line| && VersionAt(line, p)
    ensures WellFormed(m)
    ensures p + |MatchText(m)| <= |line| && line[p..p + |MatchText(m)|] == MatchText(m)
  {
    var a := Run(line, p);
    var b := Run(line, p + a + 1);
    var c := Run(line, p + a + b + 2);
    FieldsAreRuns(line, p, a, b, c);
    PiecesText(line, p, a, b, c);
    VersionMatch(line[p..p + a], line[p + a + 1..p + a + 1 + b], line[p + a + b + 2..p + a + b + 2 + c])
  }

  /** The digit run from `p` is `line[p..p + Run(line, p)]`. */
  lemma RunDigits(line: string, p: nat)
    requires p <= |line|
    ensures AllDigits(line[p..p + Run(line, p)])
  {
    assert line[p..][..Run(line, p)] == line[p..p + Run(line, p)];
  }

  /** The three runs a match takes are non-empty, all digits, and separated by dots. */
  lemma FieldsAreRuns(line: string, p: nat, a: nat, b: nat, c: nat)
    requires p <= |line| && VersionAt(line, p)
    requires a == Run(line, p) && b == Run(line, p + a + 1) && c == Run(line, p + a + b + 2)
    ensures p + a + b + c + 2 <= |line|
    ensures line[p + a] == '.' && line[p + a + 1 + b] == '.'
    ensures WellFormed(VersionMatch(line[p..p + a], line[p + a + 1..p + a + 1 + b], line[p + a + b + 2..p + a + b + 2 + c]))
  {
    assert a > 0 && b > 0 && c > 0 && p + a + b + c + 2 <= |line|;
    RunsAreDigits(line, p, a, b, c);
  }

  lemma RunsAreDigits(line: string, p: nat, a: nat, b: nat, c: nat)
    requires p + a + b + c + 2 <= |line|
    requires a == Run(line, p) && b == Run(line, p + a + 1) && c == Run(line, p + a + b + 2)
    ensures AllDigits(line[p..p + a]) && AllDigits(line[p + a + 1..p + a + 1 + b])
    ensures AllDigits(line[p + a + b + 2..p + a + b + 2 + c])
  {
    RunDigits(line, p);
    RunDigits(line, p + a + 1);
    RunDigits(line, p + a + b + 2);
  }

  lemma SliceConcat(s: string, i: nat, j: nat, k: nat)
    requires i <= j <= k <= |s|
    ensures s[i..j] + s[j..k] == s[i..k]
  {
  }

  /** Three runs with a dot after each of the first two spell the match text. */
  lemma PiecesText(line: string, p: nat, a: nat, b: nat, c: nat)
    requires p + a + b + c + 2 <= |line|
    requires line[p + a] == '.' && line[p + a + 1 + b] == '.'
    ensures line[p..p + a + b + c + 2]
      == MatchText(VersionMatch(line[p..p + a], line[p + a + 1..p + a + 1 + b], line[p + a + b + 2..p + a + b + 2 + c]))
  {
    var e := p + a + b + c + 2;
    SliceConcat(line, p + a + b + 2, p + a + b + 2, e);
    SliceConcat(line, p + a + 1 + b, p + a + b + 2, e);
    SliceConcat(line, p + a + 1, p + a + 1 + b, e);
    SliceConcat(line, p + a, p + a + 1, e);
    SliceConcat(line, p, p + a, e);
    assert line[p + a..p + a + 1] == ".";
    assert line[p + a + 1 + b..p + a + b + 2] == ".";
  }

  /** A digit run that the line does not continue is the run `Run` measures. */
  lemma RunOfPiece(line: string, p: nat, d: string)
    requires AllDigits(d)
    requires p + |d| <= |line| && line[p..p + |d|] == d
    requires p + |d| == |line| || !IsDigit(line[p + |d|])
    ensures Run(line, p) == |d|
  {
    assert line[p..] == d + line[p + |d|..];
    LeadingDigitsOfDigitsThen(d, line[p + |d|..]);
  }

  /** Reading a match from its pieces: digit runs that the line does not continue,
      separated by dots. */
  lemma VersionFromPieces(line: string, p: nat, m: VersionMatch)
    requires WellFormed(m)
    requires p + |MatchText(m)| <= |line| && line[p..p + |MatchText(m)|] == MatchText(m)
    requires p + |MatchText(m)| == |line| || !IsDigit(line[p + |MatchText(m)|])
    ensures VersionAt(line, p) && MatchAt(line, p) == m
  {
    PiecesOfMatch(line, p, m);
    RunsOfPieces(line, p, m);
    MatchOfRuns(line, p, m);
  }

  lemma MatchOfRuns(line: string, p: nat, m: VersionMatch)
    requires WellFormed(m)
    requires p + |m.major| + |m.minor| + |m.patch| + 2 <= |line|
    requires line[p..p + |m.major|] == m.major && line[p + |m.major|] == '.'
    requires line[p + |m.major| + 1..p + |m.major| + 1 + |m.minor|] == m.minor
    requires line[p + |m.major| + 1 + |m.minor|] == '.'
    requires line[p + |m.major| + |m.minor| + 2..p + |m.major| + |m.minor| + 2 + |m.patch|] == m.patch
    requires Run(line, p) == |m.major| && Run(line, p + |m.major| + 1) == |m.minor|
    requires Run(line, p + |m.major| + |m.minor| + 2) == |m.patch|
    ensures VersionAt(line, p) && MatchAt(line, p) == m
  {
    var a, b, c := |m.major|, |m.minor|, |m.patch|;
    assert a > 0 && b > 0 && c > 0;
    assert line[p + a] == '.' && line[p + a + 1 + b] == '.';
    VersionAtOfRuns(line, p, a, b, c);
    assert m == VersionMatch(line[p..p + a], line[p + a + 1..p + a + 1 + b], line[p + a + b + 2..p + a + b + 2 + c]);
  }

  /** Where the match text sits in the line, piece by piece. */
  lemma PiecesOfMatch(line: string, p: nat, m: VersionMatch)
    requires p + |MatchText(m)| <= |line| && line[p..p + |MatchText(m)|] == MatchText(m)
    requires p + |MatchText(m)| == |line| || !IsDigit(line[p + |MatchText(m)|])
    ensures var a, b, c := |m.major|, |m.minor|, |m.patch|;
      && p + a + b + c + 2 <= |line|
      && line[p..p + a] == m.major && line[p + a] == '.'
      && line[p + a + 1..p + a + 1 + b] == m.minor && line[p + a + 1 + b] == '.'
      && line[p + a + b + 2..p + a + b + 2 + c] == m.patch
      && (p + a + b + c + 2 == |line| || !IsDigit(line[p + a + b + c + 2]))
  {
    var a, b := |m.major|, |m.minor|;
    var t := MatchText(m);
    TextPieces(m);
    SubSlice(line, p, t, 0, a);
    SubSlice(line, p, t, a + 1, a + 1 + b);
    SubSlice(line, p, t, a + b + 2, |t|);
    assert line[p + a] == t[a] && line[p + a + 1 + b] == t[a + 1 + b];
  }

  /** The three runs the pattern takes are exactly the three pieces. */
  lemma RunsOfPieces(line: string, p: nat, m: VersionMatch)
    requires WellFormed(m)
    requires var a, b, c := |m.major|, |m.minor|, |m.patch|;
      && p + a + b + c + 2 <= |line|
      && line[p..p + a] == m.major && line[p + a] == '.'
      && line[p + a + 1..p + a + 1 + b] == m.minor && line[p + a + 1 + b] == '.'
      && line[p + a + b + 2..p + a + b + 2 + c] == m.patch
      && (p + a + b + c + 2 == |line| || !IsDigit(line[p + a + b + c + 2]))
    ensures Run(line, p) == |m.major| && Run(line, p + |m.major| + 1) == |m.minor|
    ensures Run(line, p + |m.major| + |m.minor| + 2) == |m.patch|
  {
    RunOfPiece(line, p, m.major);
    RunOfPiece(line, p + |m.major| + 1, m.minor);
    RunOfPiece(line, p + |m.major| + |m.minor| + 2, m.patch);
  }

  /** A slice of a slice is a slice. */
  lemma SubSlice(line: string, p: nat, t: string, i: nat, j: nat)
    requires p + |t| <= |line| && line[p..p + |t|] == t && i <= j <= |t|
    ensures line[p + i..p + j] == t[i..j]
  {
    forall k | 0 <= k < j - i ensures line[p + i..p + j][k] == t[i..j][k] {
      assert line[p + i + k] == line[p..p + |t|][i + k];
    }
  }

  /** Runs of the right lengths with dots between them are a match of those runs. */
  lemma VersionAtOfRuns(line: string, p: nat, a: nat, b: nat, c: nat)
    requires p + a + b + c + 2 <= |line|
    requires a > 0 && b > 0 && c > 0
    requires Run(line, p) == a && Run(line, p + a + 1) == b && Run(line, p + a + b + 2) == c
    requires line[p + a] == '.' && line[p + a + 1 + b] == '.'
    ensures VersionAt(line, p)
    ensures MatchAt(line, p) == VersionMatch(line[p..p + a], line[p + a + 1..p + a + 1 + b], line[p + a + b + 2..p + a + b + 2 + c])
  {
  }

  lemma TextPieces(m: VersionMatch)
    ensures var t, a, b := MatchText(m), |m.major|, |m.minor|;
      && |t| == a + b + |m.patch| + 2
      && t[0..a] == m.major && t[a] == '.'
      && t[a + 1..a + 1 + b] == m.minor && t[a + 1 + b] == '.'
      && t[a + b + 2..|t|] == m.patch
  {
  }

  /** `p` is the leftmost position where the pattern matches. */
  predicate FirstVersionAt(line: string, p: nat) {
    p <= |line| && VersionAt(line, p) && forall q :: 0 <= q < p ==> !VersionAt(line, q)
  }

  /** The leftmost position in `[p, n]` where `at` holds: the regular-expression
      search tries each start in turn. */
  function LeftmostFrom(at: nat -> bool, p: nat, n: nat): (r: Option<nat>)
    requires p <= n
    ensures r.None? <==> forall q :: p <= q <= n ==> !at(q)
    ensures r.Some? ==> p <= r.value <= n && at(r.value)
    ensures r.Some? ==> forall q :: p <= q < r.value ==> !at(q)
    decreases n - p
  {
    if at(p) then Some(p)
    else if p == n then None
    else LeftmostFrom(at, p + 1, n)
  }

  /** The search from `p` stops at the first position where `at` holds. */
  lemma {:induction false} LeftmostFromSkips(at: nat -> bool, p: nat, n: nat, k: nat)
    requires p <= k <= n && at(k)
    requires forall q :: p <= q < k ==> !at(q)
    ensures LeftmostFrom(at, p, n) == Some(k)
    decreases k - p
  {
    if p < k {
      LeftmostFromSkips(at, p + 1, n, k);
    }
  }

  /** The positions of the line where a match starts. */
  function VersionStarts(line: string): nat -> bool {
    (q: nat) => q <= |line| && VersionAt(line, q)
  }

  /** No match starts anywhere in the line. */
  predicate NoVersion(line: string) {
    forall q :: 0 <= q <= |line| ==> !VersionAt(line, q)
  }

  /** `FindStringSubmatch` of the pattern: the leftmost match, if any. */
  function FindVersion(line: string): (r: Option<VersionMatch>)
    ensures r.None? <==> NoVersion(line)
    ensures r.Some? ==> exists p :: FirstVersionAt(line, p) && r.value == MatchAt(line, p)
  {
    var start := LeftmostFrom(VersionStarts(line), 0, |line|);
    LeftmostStart(line, start);
    if start.None? then None else Some(MatchAt(line, start.value))
  }

  /** The leftmost start is the first match, and there is none exactly when no match
      starts anywhere. */
  lemma LeftmostStart(line: string, start: Option<nat>)
    requires start == LeftmostFrom(VersionStarts(line), 0, |line|)
    ensures start.None? <==> NoVersion(line)
    ensures start.Some? ==> FirstVersionAt(line, start.value)
  {
    if start.None? {
      forall q | 0 <= q <= |line| ensures !VersionAt(line, q) {
        assert !VersionStarts(line)(q);
      }
    } else {
      assert VersionStarts(line)(start.value);
      forall q | 0 <= q < start.value ensures !VersionAt(line, q) {
        assert !VersionStarts(line)(q);
      }
    }
  }

  /** When `k` is the first match, it is the one found. */
  lemma FindVersionAt(line: string, k: nat)
    requires FirstVersionAt(line, k)
    ensures FindVersion(line) == Some(MatchAt(line, k))
  {
    assert forall q :: 0 <= q < k ==> !VersionStarts(line)(q);
    LeftmostFromSkips(VersionStarts(line), 0, |line|, k);
  }

  /** A plain version reads back as itself. */
  lemma PlainVersionFound(m: VersionMatch)
    requires WellFormed(m)
    ensures FindVersion(MatchText(m)) == Some(m)
  {
    var line := MatchText(m);
    assert line[0..|line|] == line;
    VersionFromPieces(line, 0, m);
    FindVersionAt(line, 0);
  }

  // ---------------------------------------------------------------------------
  // ionicVersion and cordovaVersion

  /** The index of the first line on which `find` succeeds, if any. */
  function FirstFound(lines: seq<string>, find: string -> Option<VersionMatch>): (r: Option<nat>)
    ensures r.None? <==> forall i :: 0 <= i < |lines| ==> find(lines[i]).None?
    ensures r.Some? ==> r.value < |lines| && find(lines[r.value]).Some?
    ensures r.Some? ==> forall j :: 0 <= j < r.value ==> find(lines[j]).None?
    decreases |lines|
  {
    if lines == [] then None
    else if find(lines[0]).Some? then Some(0)
    else
      match FirstFound(lines[1..], find)
      case None =>
        assert forall i :: 1 <= i < |lines| ==> lines[i] == lines[1..][i - 1];
        None
      case Some(i) =>
        assert forall j :: 1 <= j < i + 1 ==> lines[j] == lines[1..][j - 1];
        Some(i + 1)
  }

  /** The line on which the version was found. */
  predicate FirstVersionLine(lines: seq<string>, i: int, m: VersionMatch) {
    && 0 <= i < |lines|
    && FindVersion(lines[i]) == Some(m)
    && forall j :: 0 <= j < i ==> FindVersion(lines[j]).None?
  }

  /** `ionicVersion`: a failed `ionic -v` is its error; otherwise the leftmost version on
      the first line that has one, and the error "output: <out>" when no line has one. */
  function IonicVersion(out: Result<string>): (r: Result<VersionMatch>)
    ensures out.Err? ==> r == Err(out.error)
    ensures out.Ok? ==>
      (r.Err? <==> forall i :: 0 <= i < |Lines(out.value)| ==> FindVersion(Lines(out.value)[i]).None?)
    ensures out.Ok? && r.Err? ==> r.error == "output: " + out.value
    ensures r.Ok? ==> out.Ok? && WellFormed(r.value)
    ensures r.Ok? ==> exists i :: FirstVersionLine(Lines(out.value), i, r.value)
  {
    var text :- out;
    var lines := Lines(text);
    match FirstFound(lines, FindVersion)
    case None => Err("output: " + text)
    case Some(i) =>
      var m := FindVersion(lines[i]).value;
      assert FirstVersionLine(lines, i, m);
      Ok(m)
  }

  /** The segments of a found version, as numbers: major, minor, patch. */
  function Segments(m: VersionMatch): seq<nat>
    requires WellFormed(m)
  {
    [DigitsValue(m.major), DigitsValue(m.minor), DigitsValue(m.patch)]
  }

  /** Lexicographic order on segment lists of equal length. */
  predicate SegmentsBelow(x: seq<nat>, y: seq<nat>)
    requires |x| == |y|
    decreases |x|
  {
    |x| > 0 && (x[0] < y[0] || (x[0] == y[0] && SegmentsBelow(x[1..], y[1..])))
  }

  /** The major version the step goes on with (main.go:319): the first segment. */
  function IonicMajorVersion(m: VersionMatch): (major: nat)
    requires WellFormed(m)
    ensures major == DigitsValue(m.major)
  {
    Segments(m)[0]
  }

  /** A version spelled in canonical decimals has those numbers as its segments. */
  lemma SegmentsOfDecimals(major: nat, minor: nat, patch: nat)
    ensures WellFormed(VersionMatch(Decimal(major), Decimal(minor), Decimal(patch)))
    ensures Segments(VersionMatch(Decimal(major), Decimal(minor), Decimal(patch))) == [major, minor, patch]
    ensures IonicMajorVersion(VersionMatch(Decimal(major), Decimal(minor), Decimal(patch))) == major
  {
    DecimalRoundTrip(major);
    DecimalRoundTrip(minor);
    DecimalRoundTrip(patch);
  }

  /** The constraint "< 3.8.0" that decides whether the cordova and angular CLI plugins
      are installed: older than 3.8 in its major and minor segments, whatever the patch. */
  function NeedsCliPlugins(m: VersionMatch): (r: bool)
    requires WellFormed(m)
    ensures r <==> Segments(m)[0] < 3 || (Segments(m)[0] == 3 && Segments(m)[1] < 8)
  {
    var s, bound := Segments(m), [3, 8, 0];
    assert bound[1..] == [8, 0] && bound[1..][1..] == [0];
    assert s[1..][1..] == [s[2]] && [s[2]][1..] == [];
    assert !SegmentsBelow(s[1..][1..], bound[1..][1..]);
    assert SegmentsBelow(s[1..], bound[1..]) <==> s[1] < 8;
    SegmentsBelow(s, bound)
  }

  /** 3.7.x still gets the plugins; 3.8.0 and later do not. */
  lemma CliPluginsBoundary(patch: nat)
    ensures NeedsCliPlugins(VersionMatch(Decimal(3), Decimal(7), Decimal(patch)))
    ensures !NeedsCliPlugins(VersionMatch(Decimal(3), Decimal(8), Decimal(patch)))
    ensures !NeedsCliPlugins(VersionMatch(Decimal(4), Decimal(0), Decimal(patch)))
  {
    SegmentsOfDecimals(3, 7, patch);
    SegmentsOfDecimals(3, 8, patch);
    SegmentsOfDecimals(4, 0, patch);
  }

  /** The ionic CLI's interactive output, cursor codes and all, still yields its version. */
  lemma InteractiveOutput()
    ensures IonicVersion(Ok("[1000D[K3.2.0")) == Ok(VersionMatch("3", "2", "0"))
  {
    InteractiveLines();
    InteractiveLine();
  }

  lemma InteractiveLines()
    ensures Lines("[1000D[K3.2.0") == ["[1000D[K3.2.0"]
  {
    var s := "[1000D[K3.2.0";
    assert s[|s| - 1] == '0';
    assert forall i :: 0 <= i < |s| ==> s[i] != '\n';
  }

  lemma InteractiveLine()
    ensures FindVersion("[1000D[K3.2.0") == Some(VersionMatch("3", "2", "0"))
  {
    var s := "[1000D[K3.2.0";
    var m := VersionMatch("3", "2", "0");
    InteractiveTail();
    VersionFromPieces(s, 8, m);
    NoVersionBeforeTail();
    FindVersionAt(s, 8);
  }

  lemma InteractiveTail()
    ensures MatchText(VersionMatch("3", "2", "0")) == "3.2.0"
    ensures "[1000D[K3.2.0"[8..13] == "3.2.0"
    ensures WellFormed(VersionMatch("3", "2", "0"))
  {
  }

  lemma NoVersionBeforeTail()
    ensures forall q :: 0 <= q < 8 ==> !VersionAt("[1000D[K3.2.0", q)
  {
    var s := "[1000D[K3.2.0";
    assert s[0] == '[' && s[5] == 'D' && s[6] == '[' && s[7] == 'K';
    assert forall k :: 1 <= k < 5 ==> s[k] == '1' || s[k] == '0';
    forall q | 0 <= q < 8 ensures !VersionAt(s, q) {
      if 1 <= q <= 4 {
        NoVersionInRun(s, q, 5);
      } else {
        NoVersionAtNonDigit(s, q);
      }
    }
  }

  /** No match starts at a character that is not a digit. */
  lemma NoVersionAtNonDigit(line: string, q: nat)
    requires q < |line| && !IsDigit(line[q])
    ensures !VersionAt(line, q)
  {
    assert line[q..][0] == line[q];
  }

  /** No match starts inside a digit run that ends in something other than a dot. */
  lemma NoVersionInRun(line: string, q: nat, e: nat)
    requires q < e < |line| && line[e] != '.' && !IsDigit(line[e])
    requires forall k :: q <= k < e ==> IsDigit(line[k])
    ensures !VersionAt(line, q)
  {
    assert AllDigits(line[q..e]);
    RunOfPiece(line, q, line[q..e]);
  }

  /** `cordovaVersion`'s text: what precedes the first "(", trimmed. */
  function CordovaVersionText(out: string): (v: string)
    ensures '(' !in v
    ensures v == [] || (!IsSpace(v[0]) && !IsSpace(v[|v| - 1]))
    ensures '(' !in out ==> v == TrimSpace(out)
    ensures '(' in out ==> v == TrimSpace(out[..IndexOf(out, '(')])
  {
    var parts := Split(out, '(');
    var head := parts[0];
    assert '(' !in head;
    assert head == if '(' in out then out[..IndexOf(out, '(')] else out;
    TrimSpaceKeepsOut(head, '(');
    TrimSpace(head)
  }

  /** Trimming only removes characters. */
  lemma TrimSpaceKeepsOut(s: string, c: char)
    requires c !in s
    ensures c !in TrimSpace(s)
  {
    var v := TrimSpace(s);
    var a :| 0 <= a <= |s| - |v| && s[a..a + |v|] == v && AllSpace(s[..a]) && AllSpace(s[a + |v|..]);
    assert forall i :: 0 <= i < |v| ==> v[i] == s[a + i];
  }

  /** Whatever follows the first "(" is dropped: the text is the trimmed part before it. */
  lemma CordovaVersionOfPrefix(pre: string, rest: string)
    requires '(' !in pre
    ensures CordovaVersionText(pre + "(" + rest) == TrimSpace(pre)
  {
    var out := pre + "(" + rest;
    assert out[|pre|] == '(';
    var k := IndexOf(out, '(');
    assert forall j :: 0 <= j < |pre| ==> out[j] == pre[j];
    assert forall j :: 0 <= j < k ==> out[..k][j] == out[j];
    assert out[..k] == pre;
  }

  /** `cordova -v` followed by a parenthesised note gives the bare version. */
  lemma CordovaVersionOfAnnotated(version: string, note: string)
    requires version != [] && '(' !in version
    requires !IsSpace(version[0]) && !IsSpace(version[|version| - 1])
    ensures CordovaVersionText(version + " (" + note) == version
  {
    var out := version + " (" + note;
    assert out == (version + " ") + "(" + note;
    assert '(' in out && out[|version| + 1] == '(';
    var k := IndexOf(out, '(');
    assert k == |version| + 1;
    assert out[..k] == [] + version + " ";
    assert AllSpace(" ");
    TrimSpaceOfPadded([], version, " ");
  }
}
