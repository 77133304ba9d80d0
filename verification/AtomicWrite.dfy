/** One journalled write of a state file, and where a crash inside it leaves the file. */
module AtomicWrite {
  import opened Wrappers
  import opened StateDirectory
  import opened JournalRecovery

  /** The fallible operations of a write that the environment may make fail. */
  datatype WriteFaults = WriteFaults(
    openTemp: bool, writeTemp: bool, prepare: JournalOutcome, stat: bool, moveAside: bool,
    journalMoved: JournalOutcome, undoMove: bool, replace: bool, undoReplace: bool, commit: JournalOutcome)

  /** The next generation, with the counter's wrap-around and the encoder's floor of one. */
  function NextGeneration(d: Directory, n: string): Generation {
    var p, b := GenerationOf(d.At(Primary(n))), GenerationOf(d.At(Backup(n)));
    var next := ((if b > p then b else p) + 1) % GENERATION_LIMIT;
    if next == 0 then 1 else next
  }

  /** The file's counter has not reached its last value. */
  predicate Headroom(d: Directory, n: string) {
    && GenerationOf(d.At(Primary(n))) + 1 < GENERATION_LIMIT
    && GenerationOf(d.At(Backup(n))) + 1 < GENERATION_LIMIT
  }

  function NewContent(d: Directory, n: string, v: Payload): Content {
    Envelope(NextGeneration(d, n), Some(v))
  }

  function JournalFor(d: Directory, n: string, phase: string): JournalEntry {
    JournalEntry(1, n, phase, NextGeneration(d, n))
  }

  function GiveUp(r: Run, n: string): Run {
    SetJournal(Remove(r, Temp(n)), NoJournal)
  }

  /** The temporary file is written and synced. */
  function StageTemp(r: Run, n: string, v: Payload, f: WriteFaults): (Run, bool) {
    if f.openTemp then (r, false)
    else
      var r1 := Put(r, Temp(n), Damaged);
      if f.writeTemp then (Remove(r1, Temp(n)), false)
      else (Put(r1, Temp(n), NewContent(r.dir, n, v)), true)
  }

  /** The intent is journalled. */
  function Prepare(r: Run, n: string, v: Payload, f: WriteFaults): (Run, bool) {
    var (r1, staged) := StageTemp(r, n, v, f);
    if !staged then (r1, false)
    else
      var (r2, ok) := WriteJournal(r1, JournalFor(r.dir, n, "prepared"), f.prepare);
      if !ok then (Remove(r2, Temp(n)), false) else (r2, true)
  }

  /** The old backup is dropped and the old primary takes its place. */
  function MoveAside(r: Run, n: string, e: JournalEntry, f: WriteFaults): (Run, bool) {
    var r1 := Remove(r, Backup(n));
    if f.stat then (Remove(r1, Temp(n)), false)
    else if Primary(n) !in r1.dir.files then (r1, true)
    else
      var (r2, moved) := Rename(r1, Primary(n), Backup(n), f.moveAside);
      if !moved then (GiveUp(r2, n), false)
      else
        var (r3, ok) := WriteJournal(r2, e.(phase := "primary-backed-up"), f.journalMoved);
        if !ok then (GiveUp(Rename(r3, Backup(n), Primary(n), f.undoMove).0, n), false)
        else (r3, true)
  }

  /** The temporary file becomes the primary, and the journal is retired. */
  function Install(r: Run, n: string, hadPrimary: bool, e: JournalEntry, f: WriteFaults): (Run, bool) {
    var (r1, replaced) := Rename(r, Temp(n), Primary(n), f.replace);
    if !replaced then
      var r2 := if hadPrimary then Rename(r1, Backup(n), Primary(n), f.undoReplace).0 else r1;
      (GiveUp(r2, n), false)
    else
      var (r2, ok) := WriteJournal(r1, e.(phase := "committed"), f.commit);
      if !ok then (r2, false) else (SetJournal(r2, NoJournal), true)
  }

  function Write(r: Run, n: string, v: Payload, f: WriteFaults): (Run, bool) {
    if !AcceptsName(n) then (r, false)
    else
      var e := JournalFor(r.dir, n, "prepared");
      var (r1, prepared) := Prepare(r, n, v, f);
      if !prepared then (r1, false)
      else
        var (r2, aside) := MoveAside(r1, n, e, f);
        if !aside then (r2, false)
        else Install(r2, n, Primary(n) in r.dir.files, e, f)
  }

  // ---- Where a write can stop -----------------------------------------------

  /** No operation that ends the write before the old primary has moved fails. */
  predicate ReachesMove(d: Directory, n: string, f: WriteFaults) {
    AcceptsName(n) && !f.openTemp && !f.writeTemp && f.prepare == Written && !f.stat
  }

  /**
   The number of file operations after which the old primary has become the backup: two for the temporary file,
   two for the journal, one each for the old backup and the rename.
   */
  const MOVED: nat := 6

  /** The rename of the temporary file over the primary takes effect within `power` operations. */
  predicate Installs(d: Directory, n: string, f: WriteFaults, power: nat) {
    && ReachesMove(d, n, f)
    && !f.replace
    && (if Primary(n) in d.files then !f.moveAside && f.journalMoved == Written && power >= MOVED + 3
        else power >= MOVED)
  }

  /**
   The old primary is out of the way, nothing has replaced it, and the journal no longer says so: a crash between
   truncating and filling the journal, or an undo that fails as well.
   */
  predicate Stranded(d: Directory, n: string, f: WriteFaults, power: nat) {
    && ReachesMove(d, n, f)
    && Primary(n) in d.files
    && !f.moveAside
    && match f.journalMoved
       case Written => power == MOVED + 1 || (f.replace && f.undoReplace && power >= MOVED + 4)
       case OpenFailed => f.undoMove && power >= MOVED + 2
       case WriteFailed => power == MOVED + 1 || (f.undoMove && power >= MOVED + 1)
       case SyncFailed => power == MOVED + 1 || (f.undoMove && power >= MOVED + 4)
  }

  lemma NeverBoth(d: Directory, n: string, f: WriteFaults, power: nat)
    requires Stranded(d, n, f, power)
    ensures !Installs(d, n, f, power) && d.At(Primary(n)).Some?
  {
  }

  /** The primary is as it was; the backup is too, or has been dropped. */
  ghost predicate Untouched(d: Directory, d': Directory, n: string) {
    && d'.At(Primary(n)) == d.At(Primary(n))
    && (d'.At(Backup(n)) == d.At(Backup(n)) || d'.At(Backup(n)).None?)
    && OthersUntouched(d, d', n)
  }

  /** The old primary sits in the backup and there is no primary. */
  ghost predicate Aside(d: Directory, d': Directory, n: string) {
    && d.At(Primary(n)).Some?
    && d'.At(Primary(n)).None?
    && d'.At(Backup(n)) == d.At(Primary(n))
    && OthersUntouched(d, d', n)
  }

  /** The new value is the primary and the old one, if any, its backup. */
  ghost predicate Installed(d: Directory, d': Directory, n: string, v: Payload) {
    && d'.At(Primary(n)) == Some(NewContent(d, n, v))
    && d'.At(Backup(n)) == d.At(Primary(n))
    && OthersUntouched(d, d', n)
  }

  lemma StageStops(d: Directory, power: nat, n: string, v: Payload, f: WriteFaults)
    ensures var (r, ok) := StageTemp(Run(d, power), n, v, f);
            && r.dir.quarantined == d.quarantined
            && r.dir.At(Primary(n)) == d.At(Primary(n)) && r.dir.At(Backup(n)) == d.At(Backup(n))
            && OthersUntouched(d, r.dir, n)
            && (ok <==> !f.openTemp && !f.writeTemp)
            && (ok ==> r.power == if power < 2 then 0 else power - 2)
            && (ok && power >= 2 ==> r.dir.At(Temp(n)) == Some(NewContent(d, n, v)))
  {
  }

  lemma PrepareStops(d: Directory, power: nat, n: string, v: Payload, f: WriteFaults)
    ensures var (r, ok) := Prepare(Run(d, power), n, v, f);
            && r.dir.quarantined == d.quarantined
            && r.dir.At(Primary(n)) == d.At(Primary(n)) && r.dir.At(Backup(n)) == d.At(Backup(n))
            && OthersUntouched(d, r.dir, n)
            && (ok <==> !f.openTemp && !f.writeTemp && f.prepare == Written)
            && (ok ==> r.power == if power < 4 then 0 else power - 4)
            && (ok && power >= 4 ==>
                  && r.dir.journal == Entry(JournalFor(d, n, "prepared"))
                  && r.dir.At(Temp(n)) == Some(NewContent(d, n, v)))
  {
    StageStops(d, power, n, v, f);
    var (r1, staged) := StageTemp(Run(d, power), n, v, f);
    if staged {
      var (r2, ok) := WriteJournal(r1, JournalFor(d, n, "prepared"), f.prepare);
      assert r2.dir.files == r1.dir.files;
    }
  }

  /** The journal is prepared, or the power went before that. */
  ghost predicate Prepared(d: Directory, r: Run, n: string, v: Payload) {
    && OthersUntouched(d, r.dir, n)
    && r.dir.quarantined == d.quarantined
    && r.dir.At(Primary(n)) == d.At(Primary(n))
    && r.dir.At(Backup(n)) == d.At(Backup(n))
    && (r.power > 0 ==>
          r.dir.journal == Entry(JournalFor(d, n, "prepared")) && r.dir.At(Temp(n)) == Some(NewContent(d, n, v)))
  }

  /** The old primary is the backup, or the power went before that. */
  ghost predicate Shifted(d: Directory, r: Run, n: string, v: Payload) {
    && r.dir.quarantined == d.quarantined
    && OthersUntouched(d, r.dir, n)
    && (Aside(d, r.dir, n) || (r.power == 0 && Untouched(d, r.dir, n)))
    && (r.power > 0 ==> r.dir.At(Temp(n)) == Some(NewContent(d, n, v)))
  }

  lemma ShiftStops(d: Directory, r0: Run, n: string, v: Payload)
    requires Prepared(d, r0, n, v) && RecoverableName(n) && Primary(n) in d.files
    ensures var r := Rename(Remove(r0, Backup(n)), Primary(n), Backup(n), false).0;
            && Shifted(d, r, n, v)
            && r.power == (if r0.power < 2 then 0 else r0.power - 2)
            && (if r0.power < 2 then Untouched(d, r.dir, n) else Aside(d, r.dir, n) && Guards(r.dir.journal, n))
  {
  }

  /** Undoing the move, then giving up. */
  lemma UndoStops(d: Directory, r0: Run, n: string, v: Payload, undoFails: bool)
    requires Shifted(d, r0, n, v) && RecoverableName(n)
    ensures var r := GiveUp(Rename(r0, Backup(n), Primary(n), undoFails).0, n);
            && r.dir.quarantined == d.quarantined
            && (Untouched(d, r.dir, n) || Aside(d, r.dir, n))
            && (r.power > 0 ==> r.dir.journal == NoJournal)
            && (r0.power > 0 && !undoFails ==> Untouched(d, r.dir, n))
            && (r0.power == 0 || undoFails ==>
                 && (Aside(d, r.dir, n) <==> Aside(d, r0.dir, n))
                 && r.dir.journal == if r0.power >= 2 then NoJournal else r0.dir.journal)
  {
    var r1 := Rename(r0, Backup(n), Primary(n), undoFails).0;
    if r0.power > 0 && !undoFails {
      assert Untouched(d, r1.dir, n);
    }
  }

  ghost predicate Lost(d: Directory, r: Run, n: string) {
    Aside(d, r.dir, n) && !Guards(r.dir.journal, n)
  }

  /** The old primary and the journal after `MoveAside` with a primary to move. */
  lemma MoveAsideStops(d: Directory, r0: Run, n: string, v: Payload, f: WriteFaults)
    requires Prepared(d, r0, n, v) && RecoverableName(n) && Primary(n) in d.files && !f.stat && !f.moveAside
    ensures var (r, ok) := MoveAside(r0, n, JournalFor(d, n, "prepared"), f);
            && r.dir.quarantined == d.quarantined
            && (ok <==> f.journalMoved == Written)
            && (Untouched(d, r.dir, n) || Aside(d, r.dir, n))
            && (ok ==> Shifted(d, r, n, v) && r.power == if r0.power < 4 then 0 else r0.power - 4)
            && (!ok && r.power > 0 ==> r.dir.journal == NoJournal)
            && (Lost(d, r, n) <==>
                 match f.journalMoved
                 case Written => r0.power == 3
                 case OpenFailed => f.undoMove && r0.power >= 4
                 case WriteFailed => r0.power == 3 || (f.undoMove && r0.power >= 3)
                 case SyncFailed => r0.power == 3 || (f.undoMove && r0.power >= 6))
  {
    ShiftStops(d, r0, n, v);
    var r2 := Rename(Remove(r0, Backup(n)), Primary(n), Backup(n), false).0;
    var (r3, ok) := WriteJournal(r2, JournalFor(d, n, "prepared").(phase := "primary-backed-up"), f.journalMoved);
    assert r3.dir.files == r2.dir.files && Shifted(d, r3, n, v);
    assert !ok || r0.power < 4 || Guards(r3.dir.journal, n);
    if !ok {
      UndoStops(d, r3, n, v, f.undoMove);
    }
  }

  /** Installing over the shifted primary. */
  lemma InstallStops(d: Directory, r0: Run, n: string, v: Payload, e: JournalEntry, f: WriteFaults)
    requires Shifted(d, r0, n, v) && RecoverableName(n) && Primary(n) in d.files
    requires r0.power > 0 ==> Guards(r0.dir.journal, n)
    ensures var (r, ok) := Install(r0, n, true, e, f);
            && r.dir.quarantined == d.quarantined
            && (ok && r.power > 0 ==> r.dir.journal == NoJournal)
            && (ok ==> !f.replace)
            && (f.replace && r.power > 0 ==> r.dir.journal == NoJournal)
            && (if !f.replace && r0.power > 0 then Installed(d, r.dir, n, v)
                else Untouched(d, r.dir, n) || Aside(d, r.dir, n))
            && (r0.power > 0 ==> (Lost(d, r, n) <==> f.replace && f.undoReplace && r0.power >= 2))
            && (r0.power == 0 ==> r.dir == r0.dir)
  {
    if r0.power > 0 && !f.replace {
      var r1 := Rename(r0, Temp(n), Primary(n), false).0;
      assert Installed(d, r1.dir, n, v);
      var r2 := WriteJournal(r1, e.(phase := "committed"), f.commit).0;
      assert r2.dir.files == r1.dir.files;
    } else if r0.power > 0 {
      UndoStops(d, r0, n, v, f.undoReplace);
    }
  }

  /** Installing where there was no primary to move. */
  lemma FreshInstallStops(d: Directory, r0: Run, n: string, v: Payload, e: JournalEntry, f: WriteFaults)
    requires Prepared(d, r0, n, v) && RecoverableName(n) && Primary(n) !in d.files
    ensures var (r, ok) := Install(Remove(r0, Backup(n)), n, false, e, f);
            && r.dir.quarantined == d.quarantined
            && (ok && r.power > 0 ==> r.dir.journal == NoJournal && r0.power >= 2)
            && (ok ==> !f.replace)
            && (if !f.replace && r0.power >= 2 then Installed(d, r.dir, n, v) else Untouched(d, r.dir, n))
  {
    hide NewContent;
    var r1 := Remove(r0, Backup(n));
    assert Untouched(d, r1.dir, n);
    if !f.replace {
      var r2 := Rename(r1, Temp(n), Primary(n), false).0;
      var r3 := WriteJournal(r2, e.(phase := "committed"), f.commit).0;
      assert r3.dir.files == r2.dir.files;
    }
  }

  /** The outcome every part of a write is judged by. */
  ghost predicate StopsWell(d: Directory, r: Run, n: string, v: Payload, installs: bool, stranded: bool) {
    && r.dir.quarantined == d.quarantined
    && OthersUntouched(d, r.dir, n)
    && (if installs then Installed(d, r.dir, n, v)
        else if stranded then Lost(d, r, n)
        else Untouched(d, r.dir, n) || (r.power == 0 && Aside(d, r.dir, n) && Guards(r.dir.journal, n)))
  }

  /** From the prepared journal on, when there is a primary and it can be moved. */
  lemma MovedWriteStops(d: Directory, r1: Run, n: string, v: Payload, f: WriteFaults)
    requires Prepared(d, r1, n, v) && RecoverableName(n) && Primary(n) in d.files && !f.stat && !f.moveAside
    requires ReachesMove(d, n, f)
    ensures var e := JournalFor(d, n, "prepared");
            var (r2, aside) := MoveAside(r1, n, e, f);
            var (r, ok) := if aside then Install(r2, n, true, e, f) else (r2, false);
            && StopsWell(d, r, n, v, Installs(d, n, f, r1.power + 4), Stranded(d, n, f, r1.power + 4))
            && (ok && r.power > 0 ==> Installs(d, n, f, r1.power + 4) && r.dir.journal == NoJournal)
  {
    var e := JournalFor(d, n, "prepared");
    MoveAsideStops(d, r1, n, v, f);
    var (r2, aside) := MoveAside(r1, n, e, f);
    if aside {
      InstallStops(d, r2, n, v, e, f);
    }
  }

  /** Without power nothing more happens. */
  lemma FrozenWriteStops(r1: Run, n: string, hadPrimary: bool, e: JournalEntry, f: WriteFaults)
    requires r1.power == 0
    ensures var (r2, aside) := MoveAside(r1, n, e, f);
            r2 == r1 && Install(r2, n, hadPrimary, e, f).0 == r1
  {
  }

  /**
   Every state a crash can find inside a write, with any of its operations failing: the new value is installed
   exactly when `Installs` says so; otherwise the old primary is in its place, or is the backup under a journal
   that recovery will act on, or is the backup and stranded, exactly when `Stranded` says so. A write that reports
   success has installed its value.
   */
  lemma WriteStops(d: Directory, power: nat, n: string, v: Payload, f: WriteFaults)
    requires AcceptsName(n) ==> RecoverableName(n)
    ensures var (r, ok) := Write(Run(d, power), n, v, f);
            && StopsWell(d, r, n, v, Installs(d, n, f, power), Stranded(d, n, f, power))
            && (ok && r.power > 0 ==> Installs(d, n, f, power) && r.dir.journal == NoJournal)
  {
    hide Prepare, Install;
    var r0 := Run(d, power);
    if AcceptsName(n) {
      var e := JournalFor(d, n, "prepared");
      PrepareStops(d, power, n, v, f);
      var (r1, prepared) := Prepare(r0, n, v, f);
      if prepared {
        assert Prepared(d, r1, n, v);
        if f.stat {
          assert Untouched(d, Remove(r1, Backup(n)).dir, n);
        } else if Primary(n) !in d.files {
          FreshInstallStops(d, r1, n, v, e, f);
        } else if f.moveAside {
          assert Untouched(d, Remove(r1, Backup(n)).dir, n);
        } else if power < 4 {
          FrozenWriteStops(r1, n, true, e, f);
        } else {
          MovedWriteStops(d, r1, n, v, f);
        }
      }
    }
  }

  /** The failures after which a write ends with its journal in place. */
  predicate LeavesJournal(d: Directory, n: string, f: WriteFaults, power: nat) {
    && !f.openTemp && !f.writeTemp
    && (f.prepare.WriteFailed? || f.prepare.SyncFailed?
        || (f.prepare.Written? && f.stat)
        || (Installs(d, n, f, power) && f.commit != Written))
  }

  /**
   A write that the process survives cleans up after itself, whatever failed: no temporary file is left once one
   was opened, and the journal is retired except after exactly those failures, which recovery is then for.
   */
  lemma WriteCleansUp(d: Directory, power: nat, n: string, v: Payload, f: WriteFaults)
    requires RecoverableName(n) && d.journal == NoJournal
    ensures var r := Write(Run(d, power), n, v, f).0;
            r.power > 0 ==>
              && (!f.openTemp ==> r.dir.At(Temp(n)).None?)
              && (r.dir.journal == NoJournal <==> !LeavesJournal(d, n, f, power))
  {
    var r0 := Run(d, power);
    var (r1, prepared) := Prepare(r0, n, v, f);
    PrepareStops(d, power, n, v, f);
    if prepared && r1.power == 0 {
      FrozenWriteStops(r1, n, Primary(n) in d.files, JournalFor(d, n, "prepared"), f);
    } else if prepared {
      hide Prepare, MoveAside, Install;
      assert r1.dir.At(Primary(n)) == d.At(Primary(n));
      PreparedCleansUp(d, r1, n, v, f);
    }
  }

  lemma PreparedCleansUp(d: Directory, r1: Run, n: string, v: Payload, f: WriteFaults)
    requires RecoverableName(n) && ReachesPrepared(f) && r1.dir.files.Keys >= {Temp(n)}
    requires r1.power > 0 && (Primary(n) in r1.dir.files <==> Primary(n) in d.files)
    requires r1.dir.journal == Entry(JournalFor(d, n, "prepared"))
    ensures var e := JournalFor(d, n, "prepared");
            var (r2, aside) := MoveAside(r1, n, e, f);
            var r := if aside then Install(r2, n, Primary(n) in d.files, e, f).0 else r2;
            r.power > 0 ==>
              && r.dir.At(Temp(n)).None?
              && (r.dir.journal == NoJournal <==> !LeavesJournal(d, n, f, r1.power + 4))
  {
    hide NextGeneration;
  }

  predicate ReachesPrepared(f: WriteFaults) {
    !f.openTemp && !f.writeTemp && f.prepare == Written
  }
}
