/** The desktop updater: preflight, state snapshot, and the swap of the installed executable with rollback. */
module Updater {
  import opened Wrappers
  import opened Text

  type Bytes = seq<bv8>

  /** A directory entry that is a regular file, or something else. */
  datatype Image = Regular(data: Bytes) | Special

  /**
   The files an update touches. `Previous` and `Stage` sit next to the install path, `Archive` is the executable's
   place in the backup directory, and `State` and `Snapshot` are a state file and its copy in the backup.
   */
  datatype Path =
    | Install | Previous | Stage | Candidate | Archive
    | State(rel: string) | Snapshot(rel: string)

  /** The disk, and how many more operations happen before the power goes. */
  datatype Machine = Machine(files: map<Path, Image>, power: nat) {
    function At(p: Path): Option<Image> {
      if p in files then Some(files[p]) else None
    }
  }

  function Step(m: Machine, files: map<Path, Image>): Machine {
    if m.power == 0 then m else Machine(files, m.power - 1)
  }

  function Remove(m: Machine, p: Path): Machine {
    Step(m, m.files - {p})
  }

  function Rename(m: Machine, p: Path, q: Path, fails: bool): (Machine, bool) {
    if fails || p !in m.files then (m, false) else (Step(m, (m.files - {p})[q := m.files[p]]), true)
  }

  /** How copying a file ends; a broken copy leaves the first `written` bytes, a failed sync all of them. */
  datatype CopyOutcome = Copied | OpenFailed | Broken(written: nat) | SyncFailed

  function Truncated(data: Bytes, written: nat): Bytes {
    if written < |data| then data[..written] else data
  }

  function Copy(m: Machine, src: Path, dst: Path, o: CopyOutcome): (Machine, bool) {
    if o.OpenFailed? || src !in m.files || m.files[src].Special? then (m, false)
    else
      var data := m.files[src].data;
      var m1 := Step(m, m.files[dst := Regular([])]);
      var m2 := Step(m1, m1.files[dst := Regular(if o.Broken? then Truncated(data, o.written) else data)]);
      (m2, o.Copied?)
  }

  // ---- The plan's artifact --------------------------------------------------

  /** `sha256` is the digest the plan names; the digest function itself is a parameter. */
  datatype Artifact = Artifact(sha256: string, bytes: int)

  predicate EqualFold(a: string, b: string) {
    |a| == |b| && forall i | 0 <= i < |a| :: LowerChar(a[i]) == LowerChar(b[i])
  }

  predicate Matches(digest: Bytes -> string, c: Option<Image>, artifact: Artifact) {
    && c.Some? && c.value.Regular?
    && |c.value.data| == artifact.bytes
    && EqualFold(digest(c.value.data), artifact.sha256)
  }

  /** As long as no two files have one digest, the verified artifact is the planned one, byte for byte. */
  lemma VerifiedIsPlanned(digest: Bytes -> string, planned: Bytes, c: Option<Image>, artifact: Artifact)
    requires forall a, b :: EqualFold(digest(a), digest(b)) ==> a == b
    requires artifact.bytes == |planned| && EqualFold(digest(planned), artifact.sha256)
    ensures Matches(digest, c, artifact) <==> c == Some(Regular(planned))
  {
    if Matches(digest, c, artifact) {
      assert EqualFold(digest(c.value.data), digest(planned));
    }
  }

  // ---- State compatibility --------------------------------------------------

  datatype StateContract = StateContract(minVersion: int, maxVersion: int)

  /** One entry of the state directory, in walking order, with what goes wrong at it. */
  datatype Entry = Entry(rel: string, isDir: bool, walkFails: bool, readFails: bool, copy: CopyOutcome)

  predicate IsJson(rel: string) {
    |rel| >= 5 && EqualFold(rel[|rel| - 5..], ".json")
  }

  /** `version` reads the version of a state envelope, or nothing for any other file. */
  predicate EntryCompatible(m: Machine, e: Entry, version: Bytes -> Option<int>, c: StateContract) {
    && !e.walkFails
    && (!e.isDir && IsJson(e.rel) ==>
          && !e.readFails
          && State(e.rel) in m.files
          && match m.files[State(e.rel)] {
               case Special => false
               case Regular(data) =>
                 version(data).Some? ==> c.minVersion <= version(data).value <= c.maxVersion
             })
  }

  predicate Compatible(m: Machine, walk: seq<Entry>, version: Bytes -> Option<int>, c: StateContract) {
    && 0 < c.minVersion <= c.maxVersion
    && forall i | 0 <= i < |walk| :: EntryCompatible(m, walk[i], version, c)
  }

  /** The name ends in `.json`, in any case. */
  predicate EndsInJson(rel: string) {
    var n := |rel|;
    && n >= 5 && rel[n - 5] == '.' && rel[n - 4] in {'j', 'J'} && rel[n - 3] in {'s', 'S'}
    && rel[n - 2] in {'o', 'O'} && rel[n - 1] in {'n', 'N'}
  }

  lemma IsJsonIff(rel: string)
    ensures IsJson(rel) <==> EndsInJson(rel)
  {
    if |rel| >= 5 {
      var end := rel[|rel| - 5..];
      assert forall i | 0 <= i < 5 :: end[i] == rel[|rel| - 5 + i];
    }
  }

  /**
   Exactly what the preflight accepts: bounds that are positive and in order, a walk without errors, and every walked
   JSON file readable and a regular file whose version, if it has one, lies within the bounds, both included.
   */
  lemma CompatibleIff(m: Machine, walk: seq<Entry>, version: Bytes -> Option<int>, c: StateContract)
    ensures Compatible(m, walk, version, c) <==>
              && c.minVersion >= 1 && c.maxVersion >= c.minVersion
              && (forall i | 0 <= i < |walk| :: !walk[i].walkFails)
              && (forall i | 0 <= i < |walk| && !walk[i].isDir && EndsInJson(walk[i].rel) ::
                    && !walk[i].readFails
                    && exists data :: m.At(State(walk[i].rel)) == Some(Regular(data))
                                      && forall v | version(data) == Some(v) :: c.minVersion <= v && v <= c.maxVersion)
  {
    forall i | 0 <= i < |walk|
      ensures IsJson(walk[i].rel) <==> EndsInJson(walk[i].rel)
    {
      IsJsonIff(walk[i].rel);
    }
    if Compatible(m, walk, version, c) {
      assert forall i | 0 <= i < |walk| :: EntryCompatible(m, walk[i], version, c);
    }
  }

  /** Copies the walked state files, up to the first failure. */
  function CopyState(m: Machine, walk: seq<Entry>): (Machine, bool)
    decreases walk
  {
    if walk == [] then (m, true)
    else if walk[0].walkFails then (m, false)
    else if walk[0].isDir then CopyState(m, walk[1..])
    else
      var (m1, ok) := Copy(m, State(walk[0].rel), Snapshot(walk[0].rel), walk[0].copy);
      if ok then CopyState(m1, walk[1..]) else (m1, false)
  }

  // ---- Apply ----------------------------------------------------------------

  datatype Options = Options(
    artifact: Artifact, state: StateContract, walk: seq<Entry>,
    digest: Bytes -> string, version: Bytes -> Option<int>,
    hasHealthCheck: bool, backupInsideState: bool)

  /** What the environment decides: which reads and moves fail, and whether the new version is healthy. */
  datatype Faults = Faults(
    readCandidate: bool, snapshotDir: bool, statInstall: bool, stage: CopyOutcome, readStage: bool,
    moveAside: bool, replace: bool, readInstalled: bool, healthy: bool, archive: CopyOutcome,
    restore: bool, removePrevious: bool)

  datatype Receipt = Receipt(applied: bool, rolledBack: bool)

  datatype Outcome = Outcome(receipt: Receipt, error: bool)

  const FAILED := Outcome(Receipt(false, false), true)

  function TakeSnapshot(m: Machine, o: Options, f: Faults): (Machine, bool) {
    if o.backupInsideState || f.snapshotDir then (m, false) else CopyState(m, o.walk)
  }

  /** Puts the previous executable back; the receipt says whether that worked. */
  function Restore(m: Machine, f: Faults): (Machine, Outcome) {
    var (m1, ok) := Rename(Remove(m, Install), Previous, Install, f.restore);
    (m1, Outcome(Receipt(false, ok), true))
  }

  /** Up to the verified staged copy next to the install path. */
  function StageUpdate(m: Machine, o: Options, f: Faults): (Machine, bool) {
    var m1 := Remove(Remove(m, Stage), Previous);
    var (m2, staged) := Copy(m1, Candidate, Stage, f.stage);
    if !staged then (m2, false)
    else if f.readStage || !Matches(o.digest, m2.At(Stage), o.artifact) then (Remove(m2, Stage), false)
    else (m2, true)
  }

  /** From the moved-aside executable to the archived one. */
  function Swap(m: Machine, o: Options, f: Faults): (Machine, Outcome) {
    var (m1, moved) := Rename(m, Install, Previous, f.moveAside);
    if !moved then (Remove(m1, Stage), FAILED)
    else
      var (m2, replaced) := Rename(m1, Stage, Install, f.replace);
      if !replaced then Restore(m2, f)
      else if f.readInstalled || !Matches(o.digest, m2.At(Install), o.artifact) then Restore(m2, f)
      else if !f.healthy then Restore(m2, f)
      else
        var (m3, archived) := Copy(m2, Previous, Archive, f.archive);
        if !archived then Restore(m3, f)
        else if f.removePrevious then (m3, FAILED)
        else (Remove(m3, Previous), Outcome(Receipt(true, false), false))
  }

  function Apply(m: Machine, o: Options, f: Faults): (Machine, Outcome) {
    if !o.hasHealthCheck then (m, FAILED)
    else if f.readCandidate || !Matches(o.digest, m.At(Candidate), o.artifact) then (m, FAILED)
    else if !Compatible(m, o.walk, o.version, o.state) then (m, FAILED)
    else
      var (m1, snapshot) := TakeSnapshot(m, o, f);
      if !snapshot then (m1, FAILED)
      else if f.statInstall || Install !in m1.files || m1.files[Install].Special? then (m1, FAILED)
      else
        var (m2, staged) := StageUpdate(m1, o, f);
        if !staged then (m2, FAILED) else Swap(m2, o, f)
  }

  // ---- What an update never loses -------------------------------------------

  /**
   The executable that was installed is still on disk, and what is installed is nothing, it, or the plan's
   artifact.
   */
  ghost predicate NeverLost(before: Machine, now: Machine, o: Options) {
    && (Install in before.files ==>
          before.At(Install) in {now.At(Install), now.At(Previous), now.At(Archive)})
    && (now.At(Install).None? || now.At(Install) == before.At(Install)
        || Matches(o.digest, now.At(Install), o.artifact))
  }

  /** Files outside the executable's own four are untouched, save for the state snapshot. */
  ghost predicate StateUntouched(before: Machine, now: Machine) {
    && now.At(Candidate) == before.At(Candidate)
    && forall rel: string :: now.At(State(rel)) == before.At(State(rel))
  }

  /** Only snapshot files may have changed. */
  ghost predicate OnlySnapshots(before: Machine, now: Machine) {
    forall p: Path :: !p.Snapshot? ==> now.At(p) == before.At(p)
  }

  predicate Copies(walk: seq<Entry>, rel: string) {
    exists i :: 0 <= i < |walk| && !walk[i].isDir && walk[i].rel == rel
  }

  lemma {:induction false} CopyStateEffect(m: Machine, walk: seq<Entry>)
    ensures var (m', ok) := CopyState(m, walk);
            && OnlySnapshots(m, m')
            && m'.power <= m.power
            && (forall rel: string :: !Copies(walk, rel) ==> m'.At(Snapshot(rel)) == m.At(Snapshot(rel)))
            && (ok && m'.power > 0 ==>
                  forall rel: string :: Copies(walk, rel) ==>
                    State(rel) in m.files && m'.At(Snapshot(rel)) == m.At(State(rel)))
    decreases walk
  {
    if walk != [] && !walk[0].walkFails {
      assert forall rel: string ::
          Copies(walk, rel) <==> Copies(walk[1..], rel) || (!walk[0].isDir && walk[0].rel == rel) by {
        forall rel: string
          ensures Copies(walk, rel) <==> Copies(walk[1..], rel) || (!walk[0].isDir && walk[0].rel == rel)
        {
          CopiesSplit(walk, rel);
        }
      }
      if walk[0].isDir {
        CopyStateEffect(m, walk[1..]);
      } else {
        var (m1, ok) := Copy(m, State(walk[0].rel), Snapshot(walk[0].rel), walk[0].copy);
        assert OnlySnapshots(m, m1);
        assert forall rel: string :: rel != walk[0].rel ==> m1.At(Snapshot(rel)) == m.At(Snapshot(rel));
        if ok {
          assert m1.power > 0 ==> m1.At(Snapshot(walk[0].rel)) == m.At(State(walk[0].rel));
          CopyStateEffect(m1, walk[1..]);
        }
      }
    }
  }

  lemma CopiesSplit(walk: seq<Entry>, rel: string)
    requires walk != []
    ensures Copies(walk, rel) <==> Copies(walk[1..], rel) || (!walk[0].isDir && walk[0].rel == rel)
  {
    if Copies(walk, rel) {
      var i :| 0 <= i < |walk| && !walk[i].isDir && walk[i].rel == rel;
      assert i == 0 || walk[i] == walk[1..][i - 1];
    }
    if Copies(walk[1..], rel) {
      var i :| 0 <= i < |walk| - 1 && !walk[1..][i].isDir && walk[1..][i].rel == rel;
      assert walk[i + 1] == walk[1..][i];
    }
  }

  // ---- Stage by stage -------------------------------------------------------

  lemma SnapshotStops(m: Machine, o: Options, f: Faults)
    ensures var (m', ok) := TakeSnapshot(m, o, f);
            && OnlySnapshots(m, m')
            && m'.power <= m.power
            && (ok && m'.power > 0 ==>
                  forall rel: string :: Copies(o.walk, rel) ==>
                    State(rel) in m.files && m'.At(Snapshot(rel)) == m.At(State(rel)))
  {
    CopyStateEffect(m, o.walk);
  }

  /** Everything but the executable's three work files is as before. */
  ghost predicate OnlySwapFiles(before: Machine, now: Machine) {
    forall p: Path :: p !in {Install, Previous, Stage, Archive} ==> now.At(p) == before.At(p)
  }

  lemma StageStops(m: Machine, o: Options, f: Faults)
    ensures var (m', ok) := StageUpdate(m, o, f);
            && m'.At(Install) == m.At(Install) && m'.At(Archive) == m.At(Archive)
            && OnlySwapFiles(m, m')
            && (ok ==> Matches(o.digest, m'.At(Stage), o.artifact))
            && (ok && m'.power > 0 ==> m'.At(Previous).None?)
  {
    hide Matches, Copy;
    var m1 := Remove(Remove(m, Stage), Previous);
    assert OnlySwapFiles(m, m1) && (m1.power > 0 ==> m1.At(Previous).None?);
    assert m1.At(Install) == m.At(Install) && m1.At(Archive) == m.At(Archive);
    var (m2, staged) := Copy(m1, Candidate, Stage, f.stage);
    CopyTouchesTarget(m1, Candidate, Stage, f.stage);
    assert OnlySwapFiles(m, m2);
  }

  lemma CopyTouchesTarget(m: Machine, src: Path, dst: Path, c: CopyOutcome)
    ensures var (m', ok) := Copy(m, src, dst, c);
            && (forall p: Path :: p != dst ==> m'.At(p) == m.At(p))
            && m'.power <= m.power
            && (ok && m'.power > 0 ==> src in m.files && m'.At(dst) == m.At(src))
  {
  }

  /** Putting the previous executable back, from any state in which it holds the old bytes or nothing was lost yet. */
  lemma RestoreStops(before: Machine, m: Machine, o: Options, f: Faults)
    requires Install in before.files
    requires NeverLost(before, m, o)
    requires m.At(Previous) == before.At(Install) || m.power == 0
    ensures var (m', out) := Restore(m, f);
            && NeverLost(before, m', o)
            && out.error && !out.receipt.applied
            && OnlySwapFiles(m, m')
            && (m'.power > 0 ==>
                  if out.receipt.rolledBack then m'.At(Install) == before.At(Install)
                  else f.restore && m'.At(Install).None? && m'.At(Previous) == before.At(Install))
  {
    var m1 := Remove(m, Install);
    assert NeverLost(before, m1, o);
  }

  /** What the caller learns, when the power holds. */
  ghost predicate OutcomeMeans(before: Machine, now: Machine, out: Outcome, o: Options, f: Faults) {
    && (out.error <==> !out.receipt.applied)
    && (out.receipt.applied ==>
          && !out.receipt.rolledBack && f.healthy
          && Matches(o.digest, now.At(Install), o.artifact)
          && now.At(Archive) == before.At(Install)
          && now.At(Previous).None?)
    && (out.receipt.rolledBack ==> now.At(Install) == before.At(Install))
    && (!out.receipt.applied && !out.receipt.rolledBack ==>
          || now.At(Install) == before.At(Install)
          || (f.restore && now.At(Install).None? && now.At(Previous) == before.At(Install))
          || (&& f.removePrevious && f.healthy
              && Matches(o.digest, now.At(Install), o.artifact)
              && now.At(Archive) == before.At(Install)
              && now.At(Previous) == before.At(Install)))
  }

  lemma SwapStops(before: Machine, m: Machine, o: Options, f: Faults)
    requires Install in before.files && before.files[Install].Regular?
    requires m.At(Install) == before.At(Install)
    requires Matches(o.digest, m.At(Stage), o.artifact)
    ensures var (m', out) := Swap(m, o, f);
            && NeverLost(before, m', o)
            && OnlySwapFiles(m, m')
            && (m'.power > 0 ==> OutcomeMeans(before, m', out, o, f))
  {
    var (m1, moved) := Rename(m, Install, Previous, f.moveAside);
    assert NeverLost(before, m1, o) && OnlySwapFiles(m, m1);
    if moved {
      assert m1.power > 0 ==> m1.At(Previous) == before.At(Install);
      var (m2, replaced) := Rename(m1, Stage, Install, f.replace);
      assert OnlySwapFiles(m, m2);
      assert m2.power > 0 ==> m2.At(Previous) == before.At(Install);
      assert NeverLost(before, m2, o);
      if !replaced || f.readInstalled || !Matches(o.digest, m2.At(Install), o.artifact) || !f.healthy {
        RestoreStops(before, m2, o, f);
      } else {
        ArchiveStops(before, m2, o, f);
      }
    }
  }

  /** The last leg: archive the old executable, then drop the copy next to the new one. */
  lemma ArchiveStops(before: Machine, m: Machine, o: Options, f: Faults)
    requires Install in before.files && before.files[Install].Regular? && f.healthy
    requires NeverLost(before, m, o)
    requires m.power > 0 ==> m.At(Previous) == before.At(Install)
    requires m.power > 0 ==> Matches(o.digest, m.At(Install), o.artifact)
    ensures var (m3, archived) := Copy(m, Previous, Archive, f.archive);
            var (m', out) :=
              if !archived then Restore(m3, f)
              else if f.removePrevious then (m3, FAILED)
              else (Remove(m3, Previous), Outcome(Receipt(true, false), false));
            && NeverLost(before, m', o)
            && OnlySwapFiles(m, m')
            && (m'.power > 0 ==> OutcomeMeans(before, m', out, o, f))
  {
    var (m3, archived) := Copy(m, Previous, Archive, f.archive);
    CopyTouchesTarget(m, Previous, Archive, f.archive);
    assert m.power > 0 ==> m3.At(Previous) == before.At(Install);
    assert NeverLost(before, m3, o) by {
      if m.power == 0 {
        assert m3.files == m.files;
      }
    }
    if !archived {
      RestoreStops(before, m3, o, f);
    }
  }

  /**
   The updater's main theorem. Wherever an update stops (the power at any operation, or any operation failing),
   the executable that was installed is still in its place, next to it or in the archive; what is installed is
   nothing, that executable, or bytes that match the plan; and the state files and the candidate are as they were.
   */
  lemma UpdateNeverLosesExecutable(m: Machine, o: Options, f: Faults)
    ensures var (m', out) := Apply(m, o, f);
            && NeverLost(m, m', o)
            && StateUntouched(m, m')
  {
    ApplyStops(m, o, f);
  }

  /**
   Every outcome of an update that was not cut short: no error exactly when applied, and then the verified and
   healthy artifact is installed and the old executable archived; rolled back only with the old executable back in
   place; and an error with neither flag leaves the old executable installed, or next to the empty install path
   because putting it back failed, or archived with only the last removal undone.
   */
  lemma UpdateOutcomesAreExhaustive(m: Machine, o: Options, f: Faults)
    ensures var (m', out) := Apply(m, o, f);
            m'.power > 0 ==> OutcomeMeans(m, m', out, o, f)
  {
    ApplyStops(m, o, f);
  }

  // ---- When an update is applied --------------------------------------------

  predicate IsFile(i: Option<Image>) {
    i.Some? && i.value.Regular?
  }

  /** Every walked file is there, is a regular file and is copied. */
  predicate SnapshotGoesWell(m: Machine, walk: seq<Entry>) {
    forall i | 0 <= i < |walk| ::
      !walk[i].walkFails && (!walk[i].isDir ==> IsFile(m.At(State(walk[i].rel))) && walk[i].copy.Copied?)
  }

  /** The update gets as far as clearing the way for its staged copy. */
  predicate ReachesStaging(m: Machine, o: Options, f: Faults) {
    && o.hasHealthCheck && !f.readCandidate && Matches(o.digest, m.At(Candidate), o.artifact)
    && Compatible(m, o.walk, o.version, o.state)
    && !o.backupInsideState && !f.snapshotDir && SnapshotGoesWell(m, o.walk)
    && !f.statInstall && IsFile(m.At(Install))
  }

  /** Nothing that comes before the replacing rename goes wrong. */
  predicate ReachesReplacement(m: Machine, o: Options, f: Faults) {
    ReachesStaging(m, o, f) && f.stage.Copied? && !f.readStage && !f.moveAside
  }

  /**
   Exactly when an update that is not cut short is applied, and when it rolls back: it is applied iff nothing goes
   wrong and the new version is healthy; and it is rolled back iff the replacement, its verification, its health
   check or the archiving goes wrong, after everything before went well, and the old executable can be put back.
   */
  lemma AppliedIff(m: Machine, o: Options, f: Faults)
    ensures var (m', out) := Apply(m, o, f);
            m'.power > 0 ==>
              && (out.receipt.applied <==>
                    && ReachesReplacement(m, o, f)
                    && !f.replace && !f.readInstalled && f.healthy && f.archive.Copied? && !f.removePrevious)
              && (out.receipt.rolledBack <==>
                    && ReachesReplacement(m, o, f)
                    && (f.replace || f.readInstalled || !f.healthy || !f.archive.Copied?) && !f.restore)
  {
    hide Matches, Compatible, CopyState, StageUpdate, Swap, SnapshotGoesWell;
    CopyStateGoesWell(m, o.walk);
    SnapshotStops(m, o, f);
    var (m1, snapshot) := TakeSnapshot(m, o, f);
    assert m1.At(Install) == m.At(Install) && m1.At(Candidate) == m.At(Candidate);
    if Matches(o.digest, m.At(Candidate), o.artifact) && IsFile(m.At(Install)) {
      StageGoesWell(m1, o, f);
      var (m2, staged) := StageUpdate(m1, o, f);
      if staged {
        StageStops(m1, o, f);
        SwapGoesWell(m2, o, f);
      }
    }
  }

  /**
   When an update that is not cut short leaves a staged copy lying about: iff copying the candidate broke off after
   the copy was opened, or the copy could not replace the executable that had been moved aside. An update that does
   not get that far leaves what was there.
   */
  lemma StageLeftIff(m: Machine, o: Options, f: Faults)
    ensures var m' := Apply(m, o, f).0;
            m'.power > 0 ==>
              if ReachesStaging(m, o, f) then
                m'.At(Stage).Some? <==>
                  || f.stage.Broken? || f.stage.SyncFailed?
                  || (f.stage.Copied? && !f.readStage && !f.moveAside && f.replace)
              else m'.At(Stage) == m.At(Stage)
  {
    hide Matches, Compatible, CopyState, StageUpdate, Swap, SnapshotGoesWell;
    CopyStateGoesWell(m, o.walk);
    SnapshotStops(m, o, f);
    var m1 := TakeSnapshot(m, o, f).0;
    assert m1.At(Install) == m.At(Install) && m1.At(Candidate) == m.At(Candidate) && m1.At(Stage) == m.At(Stage);
    if ReachesStaging(m, o, f) {
      StageGoesWell(m1, o, f);
      StagingLeaves(m1, o, f);
      var (m2, staged) := StageUpdate(m1, o, f);
      if staged {
        StageStops(m1, o, f);
        SwapGoesWell(m2, o, f);
        SwapLeavesStage(m2, o, f);
      }
    }
  }

  lemma StagingLeaves(m: Machine, o: Options, f: Faults)
    requires Matches(o.digest, m.At(Candidate), o.artifact)
    ensures var (m', ok) := StageUpdate(m, o, f);
            m'.power > 0 ==>
              && (!ok ==> (m'.At(Stage).Some? <==> f.stage.Broken? || f.stage.SyncFailed?))
              && (ok ==> f.stage.Copied? && !f.readStage)
  {
    hide Truncated;
  }

  lemma SwapLeavesStage(m: Machine, o: Options, f: Faults)
    requires Matches(o.digest, m.At(Stage), o.artifact) && IsFile(m.At(Install))
    ensures var m' := Swap(m, o, f).0;
            m'.power > 0 ==> (m'.At(Stage).Some? <==> !f.moveAside && f.replace)
  {
    hide Truncated, Matches;
    assert m.At(Stage).Some? by { StageIsThere(m, o); }
  }

  lemma {:induction false} CopyStateGoesWell(m: Machine, walk: seq<Entry>)
    ensures CopyState(m, walk).1 <==> SnapshotGoesWell(m, walk)
    decreases walk
  {
    if walk != [] {
      var e, rest := walk[0], walk[1..];
      assert SnapshotGoesWell(m, walk) <==>
               && SnapshotGoesWell(m, rest)
               && !e.walkFails && (!e.isDir ==> IsFile(m.At(State(e.rel))) && e.copy.Copied?) by {
        assert forall i | 0 < i < |walk| :: walk[i] == rest[i - 1];
        assert forall i | 0 <= i < |rest| :: rest[i] == walk[i + 1];
      }
      var m1 := Copy(m, State(e.rel), Snapshot(e.rel), e.copy).0;
      CopyTouchesTarget(m, State(e.rel), Snapshot(e.rel), e.copy);
      CopyStateGoesWell(if e.isDir then m else m1, rest);
    }
  }

  lemma StageGoesWell(m: Machine, o: Options, f: Faults)
    requires Matches(o.digest, m.At(Candidate), o.artifact)
    ensures var (m', ok) := StageUpdate(m, o, f);
            && m'.power <= m.power
            && (m'.power > 0 ==>
                  (ok <==> f.stage.Copied? && !f.readStage) && (ok ==> m'.At(Stage) == m.At(Candidate)))
  {
    hide Truncated;
  }

  lemma SwapGoesWell(m: Machine, o: Options, f: Faults)
    requires Matches(o.digest, m.At(Stage), o.artifact) && IsFile(m.At(Install))
    ensures var (m', out) := Swap(m, o, f);
            && m'.power <= m.power
            && (m'.power > 0 ==>
                  && (out.receipt.applied <==>
                        && !f.moveAside && !f.replace && !f.readInstalled && f.healthy && f.archive.Copied?
                        && !f.removePrevious)
                  && (out.receipt.rolledBack <==>
                        && !f.moveAside && (f.replace || f.readInstalled || !f.healthy || !f.archive.Copied?)
                        && !f.restore))
  {
    hide Truncated, Matches;
    assert m.At(Stage).Some? by { StageIsThere(m, o); }
  }

  lemma StageIsThere(m: Machine, o: Options)
    requires Matches(o.digest, m.At(Stage), o.artifact)
    ensures m.At(Stage).Some?
  {
  }

  /** The walk lists every state file, as a walk of the whole directory does. */
  ghost predicate WalksEverything(m: Machine, walk: seq<Entry>) {
    forall rel: string | State(rel) in m.files :: Copies(walk, rel)
  }

  function VersionAt(m: Machine, o: Options, rel: string): Option<int> {
    match m.At(State(rel))
    case Some(Regular(data)) => o.version(data)
    case _ => None
  }

  /** No walked state file is newer or older than the target version can read. */
  ghost predicate NothingUnreadable(m: Machine, o: Options) {
    forall rel, v | Copies(o.walk, rel) && IsJson(rel) && VersionAt(m, o, rel) == Some(v) ::
      o.state.minVersion <= v <= o.state.maxVersion
  }

  /** A walked state file and its copy in the backup are the same. */
  predicate KeptCopy(before: Machine, now: Machine, rel: string) {
    State(rel) in before.files && now.At(Snapshot(rel)) == before.At(State(rel))
  }

  /**
   An update that got as far as the swap leaves the new executable, or the restored old one, with no walked state
   file it cannot read, and its backup holds an exact copy of each. When the walk lists every state file, that is
   all of them.
   */
  lemma AppliedUpdateKeptStateCopy(m: Machine, o: Options, f: Faults)
    ensures var (m', out) := Apply(m, o, f);
            m'.power > 0 && (out.receipt.applied || out.receipt.rolledBack) ==>
              && Compatible(m, o.walk, o.version, o.state) && NothingUnreadable(m', o)
              && (forall rel: string | Copies(o.walk, rel) :: KeptCopy(m, m', rel))
              && (WalksEverything(m, o.walk) ==>
                    forall rel: string | State(rel) in m.files ::
                      && KeptCopy(m, m', rel)
                      && (IsJson(rel) && VersionAt(m', o, rel).Some? ==>
                            o.state.minVersion <= VersionAt(m', o, rel).value <= o.state.maxVersion))
  {
    hide Apply, Compatible;
    ApplyStops(m, o, f);
    CompatibleIsReadable(m, Apply(m, o, f).0, o);
  }

  lemma CompatibleIsReadable(m: Machine, m': Machine, o: Options)
    requires StateUntouched(m, m')
    ensures Compatible(m, o.walk, o.version, o.state) ==> NothingUnreadable(m', o)
  {
    if Compatible(m, o.walk, o.version, o.state) {
      forall rel, v | Copies(o.walk, rel) && IsJson(rel) && VersionAt(m', o, rel) == Some(v)
        ensures o.state.minVersion <= v <= o.state.maxVersion
      {
        var i :| 0 <= i < |o.walk| && !o.walk[i].isDir && o.walk[i].rel == rel;
        assert EntryCompatible(m, o.walk[i], o.version, o.state);
        assert VersionAt(m, o, rel) == VersionAt(m', o, rel);
      }
    }
  }

  lemma ApplyStops(m: Machine, o: Options, f: Faults)
    ensures var (m', out) := Apply(m, o, f);
            && NeverLost(m, m', o)
            && StateUntouched(m, m')
            && (m'.power > 0 ==> OutcomeMeans(m, m', out, o, f))
            && (m'.power > 0 && (out.receipt.applied || out.receipt.rolledBack) ==>
                  && Compatible(m, o.walk, o.version, o.state)
                  && forall rel: string :: Copies(o.walk, rel) ==>
                       State(rel) in m.files && m'.At(Snapshot(rel)) == m.At(State(rel)))
  {
    if o.hasHealthCheck && !f.readCandidate && Matches(o.digest, m.At(Candidate), o.artifact)
       && Compatible(m, o.walk, o.version, o.state) {
      SnapshotStops(m, o, f);
      var (m1, snapshot) := TakeSnapshot(m, o, f);
      assert m1.At(Install) == m.At(Install) && m1.At(Candidate) == m.At(Candidate);
      if snapshot && !f.statInstall && Install in m1.files && m1.files[Install].Regular? {
        StageStops(m1, o, f);
        var (m2, staged) := StageUpdate(m1, o, f);
        if staged {
          SwapStops(m, m2, o, f);
          PowerOnlyFalls(m2, o, f);
        }
      }
    }
  }

  lemma PowerOnlyFalls(m: Machine, o: Options, f: Faults)
    ensures Swap(m, o, f).0.power <= m.power
  {
    hide Matches, Truncated;
  }

  /**
   An update that starts without an installed executable refuses, and keeps whatever an earlier one left next to
   it.
   */
  lemma MissingInstallKeepsPrevious(m: Machine, o: Options, f: Faults)
    requires Install !in m.files
    ensures var (m', out) := Apply(m, o, f);
            && out == FAILED
            && m'.At(Previous) == m.At(Previous) && m'.At(Archive) == m.At(Archive)
  {
    SnapshotStops(m, o, f);
    assert TakeSnapshot(m, o, f).0.At(Install) == m.At(Install);
    assert TakeSnapshot(m, o, f).0.At(Previous) == m.At(Previous);
    assert TakeSnapshot(m, o, f).0.At(Archive) == m.At(Archive);
  }

  // ---- The same operations, step by step ------------------------------------

  class Host {
    var files: map<Path, Image>
    var power: nat

    constructor (m: Machine)
      ensures Now() == m
    {
      files, power := m.files, m.power;
    }

    ghost function Now(): Machine
      reads this
    {
      Machine(files, power)
    }

    method Spend(next: map<Path, Image>)
      modifies this
      ensures Now() == Step(old(Now()), next)
    {
      if power > 0 {
        files, power := next, power - 1;
      }
    }

    method RemoveFile(p: Path)
      modifies this
      ensures Now() == Remove(old(Now()), p)
    {
      Spend(files - {p});
    }

    method RenameFile(p: Path, q: Path, fails: bool) returns (ok: bool)
      modifies this
      ensures (Now(), ok) == Rename(old(Now()), p, q, fails)
    {
      ok := !fails && p in files;
      if ok {
        Spend((files - {p})[q := files[p]]);
      }
    }

    method CopyFile(src: Path, dst: Path, c: CopyOutcome) returns (ok: bool)
      modifies this
      ensures (Now(), ok) == Copy(old(Now()), src, dst, c)
    {
      if c.OpenFailed? || src !in files || files[src].Special? {
        return false;
      }
      var data := files[src].data;
      Spend(files[dst := Regular([])]);
      Spend(files[dst := Regular(if c.Broken? then Truncated(data, c.written) else data)]);
      ok := c.Copied?;
    }

    method VerifyArtifact(p: Path, o: Options, readFails: bool) returns (ok: bool)
      ensures ok <==> !readFails && Matches(o.digest, Now().At(p), o.artifact)
    {
      if readFails || p !in files || files[p].Special? || |files[p].data| != o.artifact.bytes {
        return false;
      }
      ok := EqualFold(o.digest(files[p].data), o.artifact.sha256);
    }

    /** Walks the state directory and stops at the first file the target version cannot read. */
    method PreflightState(o: Options) returns (ok: bool)
      ensures ok <==> Compatible(Now(), o.walk, o.version, o.state)
    {
      if o.state.minVersion <= 0 || o.state.maxVersion < o.state.minVersion {
        return false;
      }
      for i := 0 to |o.walk|
        invariant forall j | 0 <= j < i :: EntryCompatible(Now(), o.walk[j], o.version, o.state)
      {
        var e := o.walk[i];
        if e.walkFails {
          return false;
        }
        if !e.isDir && IsJson(e.rel) {
          if e.readFails || State(e.rel) !in files || files[State(e.rel)].Special? {
            return false;
          }
          var v := o.version(files[State(e.rel)].data);
          if v.Some? && (v.value < o.state.minVersion || v.value > o.state.maxVersion) {
            return false;
          }
        }
      }
      return true;
    }

    method SnapshotState(o: Options, f: Faults) returns (ok: bool)
      modifies this
      ensures (Now(), ok) == TakeSnapshot(old(Now()), o, f)
    {
      if o.backupInsideState || f.snapshotDir {
        return false;
      }
      for i := 0 to |o.walk|
        invariant CopyState(old(Now()), o.walk) == CopyState(Now(), o.walk[i..])
      {
        assert o.walk[i..][0] == o.walk[i] && o.walk[i..][1..] == o.walk[i + 1..];
        if o.walk[i].walkFails {
          return false;
        }
        if !o.walk[i].isDir {
          ok := CopyFile(State(o.walk[i].rel), Snapshot(o.walk[i].rel), o.walk[i].copy);
          if !ok {
            return;
          }
        }
      }
      return true;
    }

    method RestorePrevious(f: Faults) returns (out: Outcome)
      modifies this
      ensures (Now(), out) == Restore(old(Now()), f)
    {
      RemoveFile(Install);
      var ok := RenameFile(Previous, Install, f.restore);
      out := Outcome(Receipt(false, ok), true);
    }

    method SwapExecutable(o: Options, f: Faults) returns (out: Outcome)
      modifies this
      ensures (Now(), out) == Swap(old(Now()), o, f)
    {
      var ok := RenameFile(Install, Previous, f.moveAside);
      if !ok {
        RemoveFile(Stage);
        return FAILED;
      }
      ok := RenameFile(Stage, Install, f.replace);
      if ok {
        ok := VerifyArtifact(Install, o, f.readInstalled);
      }
      if !ok || !f.healthy {
        out := RestorePrevious(f);
        return;
      }
      ok := CopyFile(Previous, Archive, f.archive);
      if !ok {
        out := RestorePrevious(f);
        return;
      }
      if f.removePrevious {
        return FAILED;
      }
      RemoveFile(Previous);
      out := Outcome(Receipt(true, false), false);
    }

    method ApplyUpdate(o: Options, f: Faults) returns (out: Outcome)
      modifies this
      ensures (Now(), out) == Apply(old(Now()), o, f)
    {
      out := FAILED;
      if !o.hasHealthCheck {
        return;
      }
      var ok := VerifyArtifact(Candidate, o, f.readCandidate);
      if !ok {
        return;
      }
      ok := PreflightState(o);
      if !ok {
        return;
      }
      ok := SnapshotState(o, f);
      if !ok || f.statInstall || Install !in files || files[Install].Special? {
        return;
      }
      RemoveFile(Stage);
      RemoveFile(Previous);
      ok := CopyFile(Candidate, Stage, f.stage);
      if !ok {
        return;
      }
      ok := VerifyArtifact(Stage, o, f.readStage);
      if !ok {
        RemoveFile(Stage);
        return;
      }
      out := SwapExecutable(o, f);
    }
  }
}
