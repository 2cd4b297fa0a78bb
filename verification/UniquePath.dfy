/** Tools/UniquePath.cpp: names that were never handed out before. */
module UniquePaths {
  import opened Common
  import opened Decimals

  /**
   A path splits into the folder with the file name up to its extension, and
   the extension; a number is put between the two.
   */
  datatype Parts = Parts(stem: string, extension: string)

  function Numbered(parts: Parts, i: nat): string {
    parts.stem + Decimal(i) + parts.extension
  }

  /** Different numbers give different names. */
  lemma NumberedInjective(parts: Parts, i: nat, j: nat)
    requires Numbered(parts, i) == Numbered(parts, j)
    ensures i == j
  {
    var n := |parts.stem|;
    assert Numbered(parts, i)[n..|Numbered(parts, i)| - |parts.extension|] == Decimal(i);
    assert Numbered(parts, j)[n..|Numbered(parts, j)| - |parts.extension|] == Decimal(j);
    DecimalInjective(i, j);
  }

  /** The names numbered 2 to i - 1. */
  ghost function Tried(parts: Parts, i: nat): set<string> {
    set k | 2 <= k < i :: Numbered(parts, k)
  }

  lemma {:induction false} TriedSize(parts: Parts, i: nat)
    requires i >= 2
    ensures |Tried(parts, i)| == i - 2
  {
    if i > 2 {
      TriedSize(parts, i - 1);
      assert Tried(parts, i) == Tried(parts, i - 1) + {Numbered(parts, i - 1)};
      if Numbered(parts, i - 1) in Tried(parts, i - 1) {
        var k :| 2 <= k < i - 1 && Numbered(parts, k) == Numbered(parts, i - 1);
        NumberedInjective(parts, k, i - 1);
      }
    } else {
      assert Tried(parts, i) == {};
    }
  }

  /** The path itself when it is free, and otherwise its first free numbering, counting from 2. */
  ghost predicate IsUnique(existing: set<string>, path: string, parts: Parts, r: string) {
    if path !in existing then r == path
    else exists k :: IsFirstFree(existing, parts, k) && r == parts.stem + Decimal(k) + parts.extension
  }

  ghost predicate IsFirstFree(existing: set<string>, parts: Parts, k: nat) {
    k >= 2 && Numbered(parts, k) !in existing && forall j :: 2 <= j < k ==> Numbered(parts, j) in existing
  }

  class UniquePath {
    const split: string -> Parts
    var existingPathSet: set<string>

    constructor (split: string -> Parts)
      ensures this.split == split && existingPathSet == {}
    {
      this.split := split;
      existingPathSet := {};
    }

    /** At most one more name is tried than there are stored paths. */
    method GetUniquePath(path: string) returns (uniquePath: string)
      modifies this
      ensures IsUnique(old(existingPathSet), path, split(path), uniquePath)
      ensures existingPathSet == old(existingPathSet) + {uniquePath}
    {
      uniquePath := path;
      var parts := split(path);
      var i := 2;
      while uniquePath in existingPathSet
        invariant i >= 2 && existingPathSet == old(existingPathSet)
        invariant i == 2 ==> uniquePath == path
        invariant i > 2 ==> uniquePath == Numbered(parts, i - 1) && path in existingPathSet
        invariant forall j :: 2 <= j < i - 1 ==> Numbered(parts, j) in existingPathSet
        invariant i <= |existingPathSet| + 3
        decreases |existingPathSet| + 3 - i
      {
        TriedSize(parts, i);
        SubsetSize(Tried(parts, i), existingPathSet);
        uniquePath := Numbered(parts, i);
        i := i + 1;
      }
      assert i > 2 ==> IsFirstFree(old(existingPathSet), parts, i - 1);
      existingPathSet := existingPathSet + {uniquePath};
    }
  }

  /** The answer is new, and is the only one that the definition allows. */
  lemma UniqueIsNew(existing: set<string>, path: string, parts: Parts, r: string, s: string)
    requires IsUnique(existing, path, parts, r) && IsUnique(existing, path, parts, s)
    ensures r !in existing && r == s
  {
    if path in existing {
      var j :| IsFirstFree(existing, parts, j) && r == Numbered(parts, j);
      var k :| IsFirstFree(existing, parts, k) && s == Numbered(parts, k);
      assert j == k;
    }
  }

  ghost function HandedOut(results: seq<string>): set<string> {
    set r | r in results
  }

  /** A sequence of calls, each on the set that the calls before it left. */
  ghost predicate Calls(split: string -> Parts, paths: seq<string>, results: seq<string>) {
    && |results| == |paths|
    && forall n :: 0 <= n < |paths| ==> IsUnique(HandedOut(results[..n]), paths[n], split(paths[n]), results[n])
  }

  /** Over any sequence of calls the results are pairwise distinct, and a path not handed out before is returned unchanged. */
  lemma AllDistinct(split: string -> Parts, paths: seq<string>, results: seq<string>, i: nat, j: nat)
    requires Calls(split, paths, results) && i < j < |paths|
    ensures results[i] != results[j]
    ensures paths[j] !in results[..j] ==> results[j] == paths[j]
  {
    var existing := HandedOut(results[..j]);
    UniqueIsNew(existing, paths[j], split(paths[j]), results[j], results[j]);
    assert results[..j][i] == results[i];
  }

  /** The numbered name is found within one more try than there are stored paths. */
  lemma FirstFreeIsNear(existing: set<string>, parts: Parts, k: nat)
    requires IsFirstFree(existing, parts, k)
    ensures k - 2 <= |existing|
  {
    TriedSize(parts, k);
    SubsetSize(Tried(parts, k), existing);
  }
}
