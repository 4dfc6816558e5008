/** cordovaios.go: the older, loop-written twin of `findFirstExistingDir`. */
module CordovaIos {
  import opened Paths
  import opened IosOutputs

  /** `getIOSOutoutDirPath`: walks the candidates in order and returns the first one whose
      directory check succeeds and finds it; a failing check only skips its candidate;
      "" when nothing is found, the empty list included. */
  method GetIOSOutputDirPath(candidates: seq<string>, dirCheck: string -> PathCheck) returns (path: string)
    ensures path == "" <==> NoneFound(candidates, dirCheck)
    ensures path != "" ==> exists i :: FirstHit(candidates, dirCheck, i) && candidates[i] == path
    ensures path == FindFirstExistingDir(candidates, dirCheck)
  {
    var i := 0;
    while i < |candidates|
      invariant 0 <= i <= |candidates|
      invariant forall j :: 0 <= j < i ==> !Found(dirCheck, candidates[j])
    {
      match CheckPath(dirCheck, candidates[i]) {
        case CheckFailed(_) =>
          // the failure is only logged
        case Missing =>
        case Exists =>
          assert FirstHit(candidates, dirCheck, i);
          FirstHitIsUnique(candidates, dirCheck, i, FindFirstExistingDir(candidates, dirCheck));
          return candidates[i];
      }
      i := i + 1;
    }
    return "";
  }

  /** Two first hits of the same list are the same candidate, so any path that is a first
      hit is what `findFirstExistingDir` returns. */
  lemma FirstHitIsUnique(candidates: seq<string>, dirCheck: string -> PathCheck, i: int, r: string)
    requires FirstHit(candidates, dirCheck, i)
    requires r == FindFirstExistingDir(candidates, dirCheck)
    ensures r == candidates[i]
  {
    assert r != "" by { assert Found(dirCheck, candidates[i]); }
    var k :| FirstHit(candidates, dirCheck, k) && candidates[k] == r;
  }
}
