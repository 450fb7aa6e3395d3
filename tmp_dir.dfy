/**
 * Choice of the directory that hosts a disk's scratch space (`get_tmp_dir` of
 * image_creator/disk.py). Whether a directory is writable and how much room it has
 * are answers of the host (`os.access`, `free_space`), given here as functions.
 */
module TmpDir {
  import opened Base

  type Path = string

  datatype TmpError =
    | NoCandidate   // `space[0]` on an empty list raises IndexError

  /** The fixed candidates, in order of preference on ties: /var/tmp, the user's home, /mnt. */
  function Candidates(home: Path): seq<Path> {
    ["/var/tmp", home, "/mnt"]
  }

  /** `a` is `b` with some elements left out, the rest kept in their order. */
  predicate IsSubsequence(a: seq<Path>, b: seq<Path>)
    decreases |b|
  {
    if a == [] then true
    else if b == [] then false
    else (a[0] == b[0] && IsSubsequence(a[1..], b[1..])) || IsSubsequence(a, b[1..])
  }

  /** `[t for t in candidates if os.access(t, os.W_OK)]`: the writable ones, in candidate order. */
  function WritableOnes(candidates: seq<Path>, writable: Path -> bool): (r: seq<Path>)
    ensures forall p :: p in r <==> p in candidates && writable(p)
    ensures |r| <= |candidates|
    ensures IsSubsequence(r, candidates)
  {
    if candidates == [] then []
    else
      var rest := WritableOnes(candidates[1..], writable);
      if writable(candidates[0]) then
        assert ([candidates[0]] + rest)[1..] == rest;
        [candidates[0]] + rest
      else rest
  }

  /** `[free_space(t) for t in candidates]`. */
  function FreeSpaces(candidates: seq<Path>, freeSpace: Path -> nat): (space: seq<nat>)
    ensures |space| == |candidates|
    ensures forall i :: 0 <= i < |candidates| ==> space[i] == freeSpace(candidates[i])
  {
    seq(|candidates|, i requires 0 <= i < |candidates| => freeSpace(candidates[i]))
  }

  /** `k` is the first position holding the largest value of `space`. */
  ghost predicate IsFirstMaximum(space: seq<nat>, k: nat) {
    && k < |space|
    && (forall j :: 0 <= j < |space| ==> space[j] <= space[k])
    && (forall j :: 0 <= j < k ==> space[j] < space[k])
  }

  /** At most one position is the first maximum: the choice is fully determined by `space`. */
  lemma FirstMaximumUnique(space: seq<nat>, k: nat, other: nat)
    requires IsFirstMaximum(space, k) && other != k
    ensures !IsFirstMaximum(space, other)
  {
    if other < k {
      assert space[other] < space[k];
    } else if other < |space| {
      assert space[other] <= space[k];
    }
  }

  /**
   * The scan of get_tmp_dir: start from index 0 and move only on a strictly greater
   * value, so the earliest of several equal maxima wins.
   */
  method MaxIndex(space: seq<nat>) returns (maxIdx: nat)
    requires |space| > 0
    ensures IsFirstMaximum(space, maxIdx)
  {
    maxIdx := 0;
    var maxVal := space[0];
    var i := 0;
    while i < |space|
      invariant 0 <= i <= |space|
      invariant maxIdx < |space| && maxVal == space[maxIdx]
      invariant maxIdx <= i || (i == 0 && maxIdx == 0)
      invariant forall j :: 0 <= j < i ==> space[j] <= maxVal
      invariant forall j :: 0 <= j < maxIdx ==> space[j] < maxVal
    {
      if space[i] > maxVal {
        maxVal := space[i];
        maxIdx := i;
      }
      i := i + 1;
    }
  }

  /**
   * get_tmp_dir(default): a pinned directory is returned as it is, with no check at
   * all; otherwise the writable candidate with the most free space, the earliest on
   * ties, and IndexError when no candidate is writable.
   */
  method GetTmpDir(pinned: Option<Path>, home: Path, writable: Path -> bool, freeSpace: Path -> nat)
    returns (r: Result<Path, TmpError>)
    ensures pinned.Some? ==> r == Ok(pinned.value)
    ensures pinned.None? ==>
      var usable := WritableOnes(Candidates(home), writable);
      && (r.Err? <==> usable == [])
      && (r.Ok? ==> exists k: nat :: IsFirstMaximum(FreeSpaces(usable, freeSpace), k) && k < |usable|
                                     && r.value == usable[k])
  {
    if pinned.Some? {
      return Ok(pinned.value);
    }
    var usable := WritableOnes(Candidates(home), writable);
    var space := FreeSpaces(usable, freeSpace);
    if |space| == 0 {
      return Err(NoCandidate);
    }
    var k := MaxIndex(space);
    r := Ok(usable[k]);
  }
}
