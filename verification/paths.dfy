/** Go's `path/filepath` on slash-separated paths (`Join`, `Base`, `Ext`) and the
    existence checks of go-utils' `pathutil`, which the model receives as oracles. */
module Paths {

  const Separator := '/'

  /** The final path element: the text after the last separator (all of `p` when it
      has none). */
  function LastElement(p: string): (e: string)
    ensures Separator !in e
    ensures |e| <= |p| && p[|p| - |e|..] == e
    ensures |e| < |p| ==> p[|p| - |e| - 1] == Separator
    decreases |p|
  {
    if p == [] || p[|p| - 1] == Separator then []
    else
      var q := p[..|p| - 1];
      var e0 := LastElement(q);
      var e := e0 + [p[|p| - 1]];
      assert p[|p| - |e|..] == q[|q| - |e0|..] + [p[|p| - 1]];
      assert |e| < |p| ==> p[|p| - |e| - 1] == q[|q| - |e0| - 1];
      e
  }

  function TrimTrailingSeparators(p: string): (q: string)
    ensures |q| <= |p| && q == p[..|q|]
    ensures q == [] || q[|q| - 1] != Separator
    ensures forall k :: |q| <= k < |p| ==> p[k] == Separator
    decreases |p|
  {
    if p == [] || p[|p| - 1] != Separator then p else TrimTrailingSeparators(p[..|p| - 1])
  }

  /** `filepath.Base`: the last element once trailing separators are dropped; "." for
      the empty path and "/" for a path made only of separators. */
  function Base(p: string): (b: string)
    ensures b != []
    ensures Separator in b ==> b == [Separator]
    ensures p != [] && p[|p| - 1] != Separator ==> b == LastElement(p)
  {
    if p == [] then "."
    else
      var q := TrimTrailingSeparators(p);
      if q == [] then [Separator] else LastElement(q)
  }

  function LastIndexOf(s: string, c: char): (k: nat)
    requires c in s
    ensures k < |s| && s[k] == c && c !in s[k + 1..]
    decreases |s|
  {
    if s[|s| - 1] == c then |s| - 1
    else
      assert c in s[..|s| - 1] by { assert s == s[..|s| - 1] + [s[|s| - 1]]; }
      var k := LastIndexOf(s[..|s| - 1], c);
      assert s[k + 1..] == s[..|s| - 1][k + 1..] + [s[|s| - 1]];
      k
  }

  /** `filepath.Ext`: the suffix of the final element that starts at its last dot, or
      the empty string when the final element has no dot. */
  function Ext(p: string): (e: string)
    ensures e == [] <==> '.' !in LastElement(p)
    ensures e != [] ==> e[0] == '.' && '.' !in e[1..]
    ensures |e| <= |p| && p[|p| - |e|..] == e
    ensures Separator !in e
  {
    var last := LastElement(p);
    var e := FromLastDot(last);
    SuffixOfSuffix(p, last, e);
    e
  }

  /** The part of an element from its last dot on, or nothing when it has no dot. */
  function FromLastDot(last: string): (e: string)
    ensures e == [] <==> '.' !in last
    ensures e != [] ==> e[0] == '.' && '.' !in e[1..]
    ensures |e| <= |last| && last[|last| - |e|..] == e
    ensures Separator !in last ==> Separator !in e
  {
    if '.' in last then
      var k := LastIndexOf(last, '.');
      var e := last[k..];
      assert e[1..] == last[k + 1..];
      assert forall i :: 0 <= i < |e| ==> e[i] == last[k + i];
      e
    else []
  }

  lemma SuffixOfSuffix(p: string, s: string, e: string)
    requires |s| <= |p| && p[|p| - |s|..] == s
    requires |e| <= |s| && s[|s| - |e|..] == e
    ensures |e| <= |p| && p[|p| - |e|..] == e
  {
    forall i | 0 <= i < |e| ensures p[|p| - |e|..][i] == e[i] {
      assert p[|p| - |e| + i] == p[|p| - |s|..][|s| - |e| + i];
    }
  }

  /** `filepath.Join` of two clean elements: empty elements are dropped and exactly one
      separator is put between the others. */
  function Join(a: string, b: string): (r: string)
    ensures a == [] ==> r == b
    ensures b == [] ==> r == a
    ensures a != [] && b != [] ==> |r| > |b| && r[|r| - |b|..] == b && r[|r| - |b| - 1] == Separator
    ensures a != [] && b != [] ==>
      && |r| == |a| + |b| + (if a[|a| - 1] == Separator then 0 else 1)
      && r[..|a|] == a
  {
    if a == [] then b
    else if b == [] then a
    else if a[|a| - 1] == Separator then a + b
    else a + [Separator] + b
  }

  /** Joining a non-empty element onto a path keeps every prefix of that path. */
  lemma JoinKeepsPrefix(p: string, a: string, b: string)
    requires |p| <= |a| && a[..|p|] == p && b != []
    ensures |p| < |Join(a, b)| && Join(a, b)[..|p|] == p
  {
    if a != [] {
      var r := Join(a, b);
      assert r[..|a|][..|p|] == r[..|p|];
    }
  }

  /** `filepath.Join` of several elements, left to right. */
  function JoinAll(first: string, rest: seq<string>): string
    decreases |rest|
  {
    if rest == [] then first else JoinAll(Join(first, rest[0]), rest[1..])
  }

  /** Joining a directory and a single file name and taking the base name gives the
      file name back. */
  lemma BaseOfJoin(dir: string, name: string)
    requires name != [] && Separator !in name
    ensures Base(Join(dir, name)) == name
  {
    var r := Join(dir, name);
    assert r[|r| - 1] == name[|name| - 1];
    LastElementOfSuffix(r, name);
  }

  lemma {:induction false} LastElementOfSuffix(r: string, name: string)
    requires Separator !in name && |name| <= |r| && r[|r| - |name|..] == name
    requires |name| == |r| || r[|r| - |name| - 1] == Separator
    ensures LastElement(r) == name
    decreases |name|
  {
    if name != [] {
      var init := r[..|r| - 1];
      var ninit := name[..|name| - 1];
      assert name[|name| - 1] in name;
      assert init[|init| - |ninit|..] == ninit;
      LastElementOfSuffix(init, ninit);
    }
  }

  /** The outcome of `pathutil.IsPathExists` / `pathutil.IsDirExists`. */
  datatype PathCheck = Exists | Missing | CheckFailed(reason: string)

  /** An existence check as go-utils performs it: an empty path is an error before the
      file system is consulted; otherwise the file system (the oracle) answers. */
  function CheckPath(fileSystem: string -> PathCheck, p: string): (c: PathCheck)
    ensures p == [] ==> c == CheckFailed("No path provided")
    ensures p != [] ==> c == fileSystem(p)
  {
    if p == [] then CheckFailed("No path provided") else fileSystem(p)
  }
}
