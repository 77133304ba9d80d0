/** The rotating log: one current file and a bounded row of numbered backups. */
module LogRotation {
  type Bytes = seq<bv8>

  /** File 0 is the current file and file `i` the backup numbered `i`; absent files have no entry. */
  type Files = map<nat, Bytes>

  function At(files: Files, i: nat): Bytes {
    if i in files then files[i] else []
  }

  function Move(files: Files, i: nat, j: nat): Files {
    if i in files then (files - {i})[j := files[i]] else files
  }

  /** The backups from `i` down to 1 each move up by one. */
  function ShiftFrom(files: Files, i: nat): Files
    decreases i
  {
    if i == 0 then files else ShiftFrom(Move(files, i, i + 1), i - 1)
  }

  function Rotated(files: Files, backups: nat): Files
    requires backups >= 1
  {
    Move(ShiftFrom(files - {backups}, backups - 1), 0, 1)
  }

  predicate MustRotate(files: Files, p: Bytes, maxBytes: nat) {
    0 in files && |files[0]| + |p| > maxBytes
  }

  function Written(files: Files, p: Bytes, maxBytes: nat, backups: nat): Files
    requires backups >= 1
  {
    var ready := if MustRotate(files, p, maxBytes) then Rotated(files, backups) else files;
    ready[0 := At(ready, 0) + p]
  }

  function WriteAll(writes: seq<Bytes>, maxBytes: nat, backups: nat): Files
    requires backups >= 1
  {
    if writes == [] then map[]
    else Written(WriteAll(writes[..|writes| - 1], maxBytes, backups), writes[|writes| - 1], maxBytes, backups)
  }

  // ---- What the files together hold -----------------------------------------

  /** The files from the oldest, numbered `i`, to the current one, end to end. */
  function Joined(files: Files, i: nat): Bytes {
    if i == 0 then At(files, 0) else At(files, i) + Joined(files, i - 1)
  }

  function Stream(writes: seq<Bytes>): Bytes {
    if writes == [] then [] else Stream(writes[..|writes| - 1]) + writes[|writes| - 1]
  }

  function Longest(writes: seq<Bytes>): nat {
    if writes == [] then 0
    else
      var n := Longest(writes[..|writes| - 1]);
      if |writes[|writes| - 1]| > n then |writes[|writes| - 1]| else n
  }

  predicate IsSuffix(a: Bytes, b: Bytes) {
    |a| <= |b| && b[|b| - |a|..] == a
  }

  /** Shifting moves every backup up to number `i` by one and leaves number 1 free. */
  lemma {:induction false} ShiftMoves(files: Files, i: nat, k: nat)
    requires i + 1 !in files
    ensures var shifted := ShiftFrom(files, i);
            && (k in shifted <==> if k == 0 || k > i + 1 then k in files else k > 1 && k - 1 in files)
            && (k in shifted ==> shifted[k] == if k == 0 || k > i + 1 then files[k] else files[k - 1])
    decreases i
  {
    if i > 0 {
      ShiftMoves(Move(files, i, i + 1), i - 1, k);
    }
  }

  /** Rotation drops the oldest backup and moves every other file up by one; no current file is left. */
  lemma RotationMoves(files: Files, backups: nat, k: nat)
    requires backups >= 1
    ensures var r := Rotated(files, backups);
            && (k in r <==> if k > backups then k in files else k > 0 && k - 1 in files)
            && (k in r ==> r[k] == if k > backups then files[k] else files[k - 1])
  {
    var dropped := files - {backups};
    ShiftMoves(dropped, backups - 1, k);
    ShiftMoves(dropped, backups - 1, 1);
    ShiftMoves(dropped, backups - 1, 0);
  }

  lemma {:induction false} JoinedAfterRotation(files: Files, backups: nat, i: nat)
    requires 1 <= i <= backups
    ensures Joined(Rotated(files, backups), i) == Joined(files, i - 1)
  {
    hide Rotated;
    RotationMoves(files, backups, i);
    RotationMoves(files, backups, 0);
    if i > 1 {
      JoinedAfterRotation(files, backups, i - 1);
    } else {
      assert Joined(Rotated(files, backups), 1) == At(Rotated(files, backups), 1) + At(Rotated(files, backups), 0);
    }
  }

  lemma {:induction false} JoinedWithAppend(files: Files, p: Bytes, i: nat)
    ensures Joined(files[0 := At(files, 0) + p], i) == Joined(files, i) + p
  {
    var grown := files[0 := At(files, 0) + p];
    if i > 0 {
      JoinedWithAppend(files, p, i - 1);
      assert At(files, i) + (Joined(files, i - 1) + p) == (At(files, i) + Joined(files, i - 1)) + p;
    }
  }

  lemma {:induction false} SuffixOfJoined(files: Files, i: nat)
    requires i >= 1
    ensures IsSuffix(Joined(files, i - 1), Joined(files, i))
  {
  }

  lemma SuffixTransitive(a: Bytes, b: Bytes, c: Bytes)
    requires IsSuffix(a, b) && IsSuffix(b, c)
    ensures IsSuffix(a, c)
  {
  }

  lemma SuffixWithAppend(a: Bytes, b: Bytes, p: Bytes)
    requires IsSuffix(a, b)
    ensures IsSuffix(a + p, b + p)
  {
    assert (b + p)[|b| - |a|..] == b[|b| - |a|..] + p;
  }

  /** No file is longer than the limit, unless a single write was. */
  predicate Bounded(files: Files, bound: nat) {
    forall i | i in files :: |files[i]| <= bound
  }

  /** No gap in the row of backups below the current file. */
  ghost predicate Contiguous(files: Files) {
    forall i: nat | i in files && i > 0 :: i == 1 || i - 1 in files
  }

  ghost predicate LogInvariant(files: Files, writes: seq<Bytes>, maxBytes: nat, backups: nat) {
    && IsSuffix(Joined(files, backups), Stream(writes))
    && (backups !in files ==> Joined(files, backups) == Stream(writes))
    && Contiguous(files)
    && (forall i | i in files :: i <= backups)
    && Bounded(files, if Longest(writes) > maxBytes then Longest(writes) else maxBytes)
  }

  /** A write loses nothing but, when it rotates, the oldest backup. */
  lemma WriteLosesOnlyOldest(files: Files, p: Bytes, maxBytes: nat, backups: nat)
    requires backups >= 1
    ensures var before := if MustRotate(files, p, maxBytes) then Joined(files, backups - 1) else Joined(files, backups);
            Joined(Written(files, p, maxBytes, backups), backups) == before + p
    ensures Joined(files, backups) == At(files, backups) + Joined(files, backups - 1)
    ensures At(Written(files, p, maxBytes, backups), 0) ==
            if 0 in files && |At(files, 0) + p| <= maxBytes then At(files, 0) + p else p
  {
    RotationMoves(files, backups, 0);
    var ready := if MustRotate(files, p, maxBytes) then Rotated(files, backups) else files;
    if MustRotate(files, p, maxBytes) {
      JoinedAfterRotation(files, backups, backups);
    }
    JoinedWithAppend(ready, p, backups);
  }

  lemma RotationKeepsShape(files: Files, backups: nat, bound: nat)
    requires backups >= 1 && 0 in files && Contiguous(files) && Bounded(files, bound)
    requires forall i | i in files :: i <= backups
    ensures var r := Rotated(files, backups);
            && Contiguous(r) && Bounded(r, bound)
            && 0 !in r
            && (forall i | i in r :: i <= backups)
            && (backups !in r ==> backups !in files)
  {
    var r := Rotated(files, backups);
    forall i: nat
      ensures i in r <==> 0 < i <= backups && i - 1 in files
      ensures i in r ==> r[i] == files[i - 1]
    {
      RotationMoves(files, backups, i);
    }
  }

  lemma AppendKeepsShape(files: Files, p: Bytes, backups: nat, bound: nat)
    requires Contiguous(files) && Bounded(files, bound) && |At(files, 0)| + |p| <= bound
    requires forall i | i in files :: i <= backups
    ensures var grown := files[0 := At(files, 0) + p];
            Contiguous(grown) && Bounded(grown, bound) && forall i | i in grown :: i <= backups
  {
  }

  lemma WriteKeepsInvariant(files: Files, writes: seq<Bytes>, p: Bytes, maxBytes: nat, backups: nat)
    requires backups >= 1 && LogInvariant(files, writes, maxBytes, backups)
    ensures LogInvariant(Written(files, p, maxBytes, backups), writes + [p], maxBytes, backups)
  {
    assert (writes + [p])[..|writes|] == writes;
    var longest := Longest(writes + [p]);
    var bound := if longest > maxBytes then longest else maxBytes;
    var ready := if MustRotate(files, p, maxBytes) then Rotated(files, backups) else files;
    if MustRotate(files, p, maxBytes) {
      SuffixOfJoined(files, backups);
      SuffixTransitive(Joined(files, backups - 1), Joined(files, backups), Stream(writes));
      RotationKeepsShape(files, backups, bound);
    }
    AppendKeepsShape(ready, p, backups, bound);
    WriteLosesOnlyOldest(files, p, maxBytes, backups);
    SuffixWithAppend(if MustRotate(files, p, maxBytes) then Joined(files, backups - 1) else Joined(files, backups),
                     Stream(writes), p);
  }

  lemma FewFiles(files: Files, backups: nat)
    requires forall i | i in files :: i <= backups
    ensures |files| <= backups + 1
  {
    FewNumbers(files.Keys, backups + 1);
    assert |files| == |files.Keys|;
  }

  lemma {:induction false} FewNumbers(numbers: set<nat>, n: nat)
    requires forall i | i in numbers :: i < n
    ensures |numbers| <= n
  {
    if n == 0 {
      assert numbers == {};
    } else {
      FewNumbers(numbers - {n - 1}, n - 1);
    }
  }

  /**
   Log rotation over any sequence of writes to a fresh log: the backups from the oldest down and then the current
   file read, end to end, as the last part of everything ever written, and as all of it until the row is full;
   there are at most `backups + 1` files, and none is longer than the limit or the longest single write.
   */
  lemma {:induction false} FilesAreSuffixOfStream(writes: seq<Bytes>, maxBytes: nat, backups: nat)
    requires backups >= 1
    ensures var files := WriteAll(writes, maxBytes, backups);
            && LogInvariant(files, writes, maxBytes, backups)
            && |files| <= backups + 1
  {
    if writes == [] {
      EmptyJoined(backups);
    } else {
      var k := |writes| - 1;
      FilesAreSuffixOfStream(writes[..k], maxBytes, backups);
      WriteKeepsInvariant(WriteAll(writes[..k], maxBytes, backups), writes[..k], writes[k], maxBytes, backups);
      assert writes[..k] + [writes[k]] == writes;
    }
    FewFiles(WriteAll(writes, maxBytes, backups), backups);
  }

  lemma {:induction false} EmptyJoined(i: nat)
    ensures Joined(map[], i) == []
  {
    if i > 0 {
      EmptyJoined(i - 1);
    }
  }

  /** The writer, with the file renamed one at a time. */
  class RotatingWriter {
    var files: Files
    const maxBytes: nat
    const backups: nat

    constructor (maxBytes: int, backups: int)
      ensures files == map[] && this.backups >= 1
      ensures this.maxBytes == if maxBytes <= 0 then 2097152 else maxBytes
      ensures this.backups == if backups < 1 then 3 else backups
    {
      this.maxBytes := if maxBytes <= 0 then 2097152 else maxBytes;
      this.backups := if backups < 1 then 3 else backups;
      files := map[];
    }

    method Rotate()
      requires backups >= 1
      modifies this
      ensures files == Rotated(old(files), backups)
    {
      files := files - {backups};
      var i := backups - 1;
      while i >= 1
        invariant 0 <= i < backups
        invariant ShiftFrom(files, i) == ShiftFrom(old(files) - {backups}, backups - 1)
      {
        if i in files {
          files := (files - {i})[i + 1 := files[i]];
        }
        i := i - 1;
      }
      if 0 in files {
        files := (files - {0})[1 := files[0]];
      }
    }

    method Write(p: Bytes)
      requires backups >= 1
      modifies this
      ensures files == Written(old(files), p, maxBytes, backups)
    {
      if 0 in files && |files[0]| + |p| > maxBytes {
        Rotate();
      }
      files := files[0 := (if 0 in files then files[0] else []) + p];
    }
  }
}
