/**
 Whole lives of the state directory: writes to any files, crashes and failing operations anywhere in a write or in
 a recovery, and restarts.
 */
module StoreRuns {
  import opened Wrappers
  import opened StateDirectory
  import opened JournalRecovery
  import opened AtomicWrite

  function AfterWrite(d: Directory, n: string, v: Payload, f: WriteFaults, power: nat): Directory {
    Write(Run(d, power), n, v, f).0.dir
  }

  /** What a reader must see after a write that stopped somewhere: the new value exactly when it was installed. */
  function Expected(d: Directory, n: string, v: Payload, f: WriteFaults, power: nat): Option<Content> {
    if Installs(d, n, f, power) then Some(NewContent(d, n, v)) else Exposed(d, n)
  }

  // ---- One write, one crash -------------------------------------------------

  lemma NewGenerationIsNewer(d: Directory, n: string, v: Payload)
    requires Headroom(d, n)
    ensures NewContent(d, n, v).generation > GenerationOf(d.At(Primary(n)))
    ensures NewContent(d, n, v).generation > GenerationOf(d.At(Backup(n)))
  {
  }

  /**
   A reader that does not wait for recovery already sees the old or the new value, even when the primary is
   stranded.
   */
  lemma InterruptedWriteReads(d: Directory, n: string, v: Payload, f: WriteFaults, power: nat)
    requires RecoverableName(n) && Safe(d, n) && Headroom(d, n)
    ensures Exposed(AfterWrite(d, n, v, f, power), n) == Expected(d, n, v, f, power)
  {
    hide Write, Installs, Stranded;
    WriteStops(d, power, n, v, f);
  }

  /**
   The states a file may be in after a crash: ready for the next write, or moved aside under a journal recovery
   will act on.
   */
  predicate Recoverable(d: Directory, n: string) {
    || Safe(d, n)
    || (d.At(Primary(n)).None? && Decodable(d.At(Backup(n))) && Guards(d.journal, n))
  }

  /** Exactly the stranded states are out of recovery's reach. */
  lemma InterruptedWriteRecoverableIff(d: Directory, n: string, v: Payload, f: WriteFaults, power: nat)
    requires RecoverableName(n) && Safe(d, n) && Headroom(d, n)
    ensures Recoverable(AfterWrite(d, n, v, f, power), n) <==>
              !(Stranded(d, n, f, power) && Decodable(d.At(Primary(n))))
  {
    hide Write, Installs, Stranded;
    if Stranded(d, n, f, power) {
      NeverBoth(d, n, f, power);
    }
    WriteStops(d, power, n, v, f);
  }

  /** An attempt at recovery, finished or not, changes what no reader sees. */
  lemma AttemptKeepsExposed(d: Directory, a: Attempt, n: string)
    requires Recoverable(d, n)
    ensures Exposed(AfterAttempt(d, a), n) == Exposed(d, n)
    ensures Recoverable(AfterAttempt(d, a), n)
    ensures Completes(d, a) ==> Safe(AfterAttempt(d, a), n)
  {
    var d' := AfterAttempt(d, a);
    match d.journal {
      case NoJournal =>
      case Torn => QuarantineTouchesNoCopy(d, a);
      case Entry(e) =>
        if ValidJournal(e) {
          AttemptIsAllOrPending(d, a.power, a.stamp, a.order, a.faults, e.file);
          if e.file != n {
            assert d'.At(Primary(n)) == d.At(Primary(n)) && d'.At(Backup(n)) == d.At(Backup(n));
          } else if RecoveredFrom(d, d', n) {
            RecoveryKeepsExposedIff(d, d', n);
            RecoveryRestoresSafetyIff(d, d', n);
          } else {
            PendingKeepsExposed(d, d', n);
          }
        } else {
          QuarantineTouchesNoCopy(d, a);
        }
    }
  }

  /**
   The journal a write leaves, wherever it stops: none, a torn one, or a note of the file and of the generation that
   is written, in one of the three phases; the last of them only once the value is installed.
   */
  predicate LeftBy(j: JournalFile, d: Directory, n: string, installs: bool) {
    match j
    case NoJournal => true
    case Torn => true
    case Entry(e) =>
      && e.version == 1 && e.file == n && e.generation == NextGeneration(d, n)
      && (e.phase == "prepared" || e.phase == "primary-backed-up" || (e.phase == "committed" && installs))
  }

  lemma AsideLeaves(d: Directory, r: Run, n: string, f: WriteFaults)
    requires LeftBy(r.dir.journal, d, n, false)
    ensures var (r', ok) := MoveAside(r, n, JournalFor(d, n, "prepared"), f);
            && LeftBy(r'.dir.journal, d, n, false)
            && (ok ==>
                  && !f.stat
                  && (Primary(n) in r.dir.files ==> !f.moveAside && f.journalMoved == Written)
                  && (r'.power > 0 ==> r.power == r'.power + if Primary(n) in r.dir.files then 4 else 1))
  {
    hide NextGeneration;
  }

  lemma InstallLeaves(d: Directory, r: Run, n: string, hadPrimary: bool, f: WriteFaults)
    requires LeftBy(r.dir.journal, d, n, false)
    ensures var r' := Install(r, n, hadPrimary, JournalFor(d, n, "prepared"), f).0;
            LeftBy(r'.dir.journal, d, n, !f.replace && r.power > 0)
  {
    hide NextGeneration;
  }

  lemma JournalLeft(d: Directory, n: string, v: Payload, f: WriteFaults, power: nat)
    requires d.journal == NoJournal
    ensures LeftBy(AfterWrite(d, n, v, f, power).journal, d, n, Installs(d, n, f, power))
  {
    hide NextGeneration, MoveAside, Install;
    var e := JournalFor(d, n, "prepared");
    var (r1, prepared) := Prepare(Run(d, power), n, v, f);
    PrepareStops(d, power, n, v, f);
    if AcceptsName(n) && prepared {
      AsideLeaves(d, r1, n, f);
      var (r2, aside) := MoveAside(r1, n, e, f);
      if aside {
        InstallLeaves(d, r2, n, Primary(n) in d.files, f);
        assert r1.dir.At(Primary(n)) == d.At(Primary(n));
      }
    }
  }

  /**
   Starting again after a write that stopped anywhere, with anything failing in it. A recovery that completes sets
   the journal aside only if the write left it torn. Otherwise it keeps no record, the journal is gone, and so is
   the temporary file if there was a journal to name it.
   */
  lemma RestartQuarantinesIff(d: Directory, n: string, v: Payload, f: WriteFaults, power: nat, a: Attempt)
    requires RecoverableName(n) && d.journal == NoJournal && a.stamp !in d.quarantined
    requires Completes(AfterWrite(d, n, v, f, power), a)
    ensures var left := AfterWrite(d, n, v, f, power);
            var again := AfterAttempt(left, a);
            && (a.stamp in again.quarantined <==> left.journal == Torn)
            && (left.journal != Torn ==> again.quarantined == d.quarantined)
            && again.journal == NoJournal
            && (left.journal.Entry? ==> again.At(Temp(n)).None?)
            && (left.journal == NoJournal ==> again == left)
  {
    hide Write, Exposed;
    JournalLeft(d, n, v, f, power);
    WriteStops(d, power, n, v, f);
    JournalIsQuarantinedIff(AfterWrite(d, n, v, f, power), a);
  }

  // ---- Which layouts a write may start from ---------------------------------

  const CLEAN := WriteFaults(false, false, Written, false, false, Written, false, false, false, Written)

  /** A write in which nothing fails succeeds exactly for the names that are plain and not the journal's. */
  lemma FaultlessWriteSucceedsIff(d: Directory, n: string, v: Payload)
    ensures var (r, ok) := Write(Run(d, 16), n, v, CLEAN);
            ok <==> n != "" && (n == "/" || '/' !in n) && n != ".persistence-journal.json"
  {
  }

  /** The value survives a crash anywhere in a write, followed by a completed recovery. */
  ghost predicate KeepsValue(d: Directory, n: string, v: Payload) {
    forall f: WriteFaults, power: nat, a: Attempt ::
      Completes(AfterWrite(d, n, v, f, power), a) ==>
        Exposed(AfterAttempt(AfterWrite(d, n, v, f, power), a), n) == Expected(d, n, v, f, power)
  }

  /**
   The entry condition of a write is exact: a crash followed by recovery shows the old value or, once installed,
   the new one if and only if the write started from a safe layout. From any other layout a single power loss,
   before or after the old backup is dropped, loses the value a reader saw.
   */
  lemma SafeLayoutIff(d: Directory, n: string, v: Payload)
    requires RecoverableName(n) && Headroom(d, n)
    ensures KeepsValue(d, n, v) <==> Safe(d, n)
  {
    if Safe(d, n) {
      forall f: WriteFaults, power: nat, a: Attempt | Completes(AfterWrite(d, n, v, f, power), a)
        ensures Exposed(AfterAttempt(AfterWrite(d, n, v, f, power), a), n) == Expected(d, n, v, f, power)
      {
        SafeWriteThenRecovery(d, n, v, f, power, a);
      }
    } else {
      var a := Attempt(16, "", [], NO_FAULTS);
      var power := if Decodable(d.At(Backup(n))) then 5 else 4;
      CrashAroundBackupRemoval(d, n, v, power);
      var d' := AfterWrite(d, n, v, CLEAN, power);
      CompletesWithPower(d', n);
      assert Completes(d', a);
      AttemptIsAllOrPending(d', 16, "", [], NO_FAULTS, n);
      assert RecoveredFrom(d', AfterAttempt(d', a), n);
      assert Exposed(AfterAttempt(d', a), n) != Expected(d, n, v, CLEAN, power);
    }
  }

  lemma SafeWriteThenRecovery(d: Directory, n: string, v: Payload, f: WriteFaults, power: nat, a: Attempt)
    requires RecoverableName(n) && Headroom(d, n) && Safe(d, n)
    ensures Exposed(AfterAttempt(AfterWrite(d, n, v, f, power), a), n) == Expected(d, n, v, f, power)
  {
    hide Write, Installs, Stranded, Recover, Exposed, Safe;
    var d' := AfterWrite(d, n, v, f, power);
    InterruptedWriteReads(d, n, v, f, power);
    if Recoverable(d', n) {
      AttemptKeepsExposed(d', a, n);
    } else {
      InterruptedWriteRecoverableIff(d, n, v, f, power);
      WriteStops(d, power, n, v, f);
      NeverBoth(d, n, f, power);
      StrandedAttempt(d, d', a, n);
    }
  }

  /** Recovery never makes a stranded primary worse: it stays readable in the backup. */
  lemma StrandedAttempt(d: Directory, d': Directory, a: Attempt, n: string)
    requires Aside(d, d', n) && !Guards(d'.journal, n)
    ensures Exposed(AfterAttempt(d', a), n) == Exposed(d', n)
  {
    var d'' := AfterAttempt(d', a);
    if d'.journal.Torn? || (d'.journal.Entry? && !ValidJournal(d'.journal.entry)) {
      QuarantineTouchesNoCopy(d', a);
    } else if d'.journal.Entry? {
      AttemptIsAllOrPending(d', a.power, a.stamp, a.order, a.faults, d'.journal.entry.file);
      assert d''.At(Primary(n)) == d'.At(Primary(n)) && d''.At(Backup(n)) == d'.At(Backup(n));
    }
  }

  lemma CrashAroundBackupRemoval(d: Directory, n: string, v: Payload, power: nat)
    requires RecoverableName(n) && 4 <= power <= 5
    ensures var d' := AfterWrite(d, n, v, CLEAN, power);
            && d'.At(Primary(n)) == d.At(Primary(n))
            && d'.At(Backup(n)) == (if power == 4 then d.At(Backup(n)) else None)
            && Guards(d'.journal, n)
    ensures !Installs(d, n, CLEAN, power)
  {
    PrepareStops(d, power, n, v, CLEAN);
    var r1 := Prepare(Run(d, power), n, v, CLEAN).0;
    var r2 := Remove(r1, Backup(n));
    if power == 5 || Primary(n) in d.files {
      FrozenTail(r2, n, JournalFor(d, n, "prepared"), Primary(n) in d.files);
    }
  }

  lemma FrozenTail(r: Run, n: string, e: JournalEntry, hadPrimary: bool)
    requires r.power == 0
    ensures MoveAside(r, n, e, CLEAN).0 == r && Install(r, n, hadPrimary, e, CLEAN).0 == r
  {
  }

  lemma CompletesWithPower(d: Directory, n: string)
    requires Guards(d.journal, n)
    ensures Completes(d, Attempt(16, "", [], NO_FAULTS))
  {
  }

  // ---- Whole runs -----------------------------------------------------------

  datatype Action =
    | Save(name: string, value: Payload, faults: WriteFaults, power: nat)
    | Restart(attempt: Attempt)

  /** `up`: the store finished starting and has not crashed since, so it may write. */
  datatype System = System(dir: Directory, up: bool)

  function Next(s: System, a: Action): System {
    match a
    case Save(n, v, f, power) =>
      var r := Write(Run(s.dir, power), n, v, f).0;
      System(r.dir, r.power > 0)
    case Restart(attempt) => System(AfterAttempt(s.dir, attempt), Completes(s.dir, attempt))
  }

  /**
   Only a started store writes; its names are ones recovery accepts (the five state files are); the counter is not
   exhausted; and the crash or double failure does not hit the one window in which the journal no longer guards a
   readable primary that has been moved aside.
   */
  predicate Benign(s: System, a: Action) {
    a.Save? ==>
      && s.up
      && (AcceptsName(a.name) ==> RecoverableName(a.name))
      && Headroom(s.dir, a.name)
      && !(Stranded(s.dir, a.name, a.faults, a.power) && Decodable(s.dir.At(Primary(a.name))))
  }

  function After(s: System, actions: seq<Action>): System {
    if actions == [] then s
    else Next(After(s, actions[..|actions| - 1]), actions[|actions| - 1])
  }

  predicate BenignRun(s: System, actions: seq<Action>) {
    forall i | 0 <= i < |actions| :: Benign(After(s, actions[..i]), actions[i])
  }

  /**
   The specification: one atomic cell per file. A write replaces its cell exactly when its rename took effect;
   crashes and restarts do nothing.
   */
  type Cells = string -> Option<Content>

  function NextCells(cells: Cells, s: System, a: Action): Cells {
    if a.Save? && Installs(s.dir, a.name, a.faults, a.power)
    then (n: string) => if n == a.name then Some(NewContent(s.dir, a.name, a.value)) else cells(n)
    else cells
  }

  function CellsAfter(cells: Cells, s: System, actions: seq<Action>): Cells {
    if actions == [] then cells
    else
      var before := actions[..|actions| - 1];
      NextCells(CellsAfter(cells, s, before), After(s, before), actions[|actions| - 1])
  }

  /** Every file reads as its cell, and recovery (or, when up, nothing) is all a next write needs. */
  ghost predicate Refines(s: System, cells: Cells) {
    forall n | RecoverableName(n) ::
      && Exposed(s.dir, n) == cells(n)
      && Recoverable(s.dir, n)
      && (s.up ==> Safe(s.dir, n))
  }

  lemma OthersKeepExposed(d: Directory, d': Directory, n: string, m: string)
    requires OthersUntouched(d, d', n) && m != n
    ensures Exposed(d', m) == Exposed(d, m) && (Safe(d', m) <==> Safe(d, m))
  {
    assert d'.At(Primary(m)) == d.At(Primary(m)) && d'.At(Backup(m)) == d.At(Backup(m));
  }

  lemma SaveRefines(s: System, cells: Cells, a: Action)
    requires Refines(s, cells) && Benign(s, a) && a.Save?
    ensures Refines(Next(s, a), NextCells(cells, s, a))
  {
    var s' := Next(s, a);
    WriteStops(s.dir, a.power, a.name, a.value, a.faults);
    if !AcceptsName(a.name) {
      assert s'.dir == s.dir;
    } else {
      forall m | RecoverableName(m)
        ensures Exposed(s'.dir, m) == NextCells(cells, s, a)(m)
        ensures Recoverable(s'.dir, m) && (s'.up ==> Safe(s'.dir, m))
      {
        if m == a.name {
          InterruptedWriteReads(s.dir, m, a.value, a.faults, a.power);
          InterruptedWriteRecoverableIff(s.dir, m, a.value, a.faults, a.power);
        } else {
          OthersKeepExposed(s.dir, s'.dir, a.name, m);
        }
      }
    }
  }

  lemma RestartRefines(s: System, cells: Cells, a: Action)
    requires Refines(s, cells) && a.Restart?
    ensures Refines(Next(s, a), NextCells(cells, s, a))
  {
    forall m | RecoverableName(m)
      ensures Exposed(Next(s, a).dir, m) == cells(m) && Recoverable(Next(s, a).dir, m)
              && (Completes(s.dir, a.attempt) ==> Safe(Next(s, a).dir, m))
    {
      AttemptKeepsExposed(s.dir, a.attempt, m);
    }
  }

  /**
   The main theorem of the store. From any directory in which a write may start, over every run of writes to any
   files with crashes and failing operations anywhere in a write or in a recovery, each file always reads as the
   value its last installed write gave it.
   */
  lemma {:induction false} StoreRefinesCells(s: System, cells: Cells, actions: seq<Action>)
    requires Refines(s, cells) && BenignRun(s, actions)
    ensures Refines(After(s, actions), CellsAfter(cells, s, actions))
  {
    if actions != [] {
      var before, a := actions[..|actions| - 1], actions[|actions| - 1];
      forall i | 0 <= i < |before|
        ensures Benign(After(s, before[..i]), before[i])
      {
        assert before[..i] == actions[..i];
      }
      StoreRefinesCells(s, cells, before);
      assert Benign(After(s, actions[..|actions| - 1]), actions[|actions| - 1]);
      if a.Save? {
        SaveRefines(After(s, before), CellsAfter(cells, s, before), a);
      } else {
        RestartRefines(After(s, before), CellsAfter(cells, s, before), a);
      }
    }
  }

  /** Along such a run the generation a reader sees never goes back. */
  lemma {:induction false} ExposedGenerationNeverDecreases(s: System, cells: Cells, actions: seq<Action>, i: nat,
                                                           n: string)
    requires Refines(s, cells) && BenignRun(s, actions) && RecoverableName(n) && i <= |actions|
    ensures GenerationOf(Exposed(After(s, actions[..i]).dir, n)) <= GenerationOf(Exposed(After(s, actions).dir, n))
  {
    if i == |actions| {
      assert actions[..i] == actions;
    } else {
      var before, a := actions[..|actions| - 1], actions[|actions| - 1];
      assert forall k | 0 <= k < |before| :: before[..k] == actions[..k];
      assert before[..i] == actions[..i];
      ExposedGenerationNeverDecreases(s, cells, before, i, n);
      StoreRefinesCells(s, cells, before);
      StoreRefinesCells(s, cells, actions);
      var mid := After(s, before);
      assert Benign(After(s, actions[..|actions| - 1]), actions[|actions| - 1]);
      if a.Save? && a.name == n && Installs(mid.dir, n, a.faults, a.power) {
        NewGenerationIsNewer(mid.dir, n, a.value);
      }
    }
  }

  // ---- The window outside the theorem --------------------------------------

  /**
   A crash in the one excluded window: after it the value still reads from the backup, through any recovery
   attempt, but no recovery makes the layout safe again, so by `SafeLayoutIff` one more crash in the next write
   can lose it.
   */
  lemma StrandedStaysReadableButUnsafe(d: Directory, n: string, v: Payload, f: WriteFaults, power: nat, a: Attempt)
    requires RecoverableName(n) && Safe(d, n) && Headroom(d, n) && Decodable(d.At(Primary(n)))
    requires Stranded(d, n, f, power)
    ensures var d' := AfterWrite(d, n, v, f, power);
            && Exposed(d', n) == Exposed(d, n)
            && Exposed(AfterAttempt(d', a), n) == Exposed(d, n)
            && !Safe(AfterAttempt(d', a), n)
  {
    hide Write, Installs, Stranded;
    WriteStops(d, power, n, v, f);
    NeverBoth(d, n, f, power);
    var d' := AfterWrite(d, n, v, f, power);
    StrandedAttempt(d, d', a, n);
    var d'' := AfterAttempt(d', a);
    if d'.journal.Torn? || (d'.journal.Entry? && !ValidJournal(d'.journal.entry)) {
      QuarantineTouchesNoCopy(d', a);
    } else if d'.journal.Entry? {
      AttemptIsAllOrPending(d', a.power, a.stamp, a.order, a.faults, d'.journal.entry.file);
      assert d''.At(Primary(n)) == d'.At(Primary(n));
    }
  }

  /**
   `writeJSON` does not ask for the extension that recovery insists on. After a crash right behind the move of the
   primary, a completed recovery makes the layout safe again if and only if the name ends in `.json`; for any
   other accepted name the value stays behind in the backup.
   */
  lemma ExtensionDecidesRecovery(d: Directory, n: string, v: Payload, a: Attempt)
    requires AcceptsName(n) && Decodable(d.At(Primary(n)))
    requires Completes(AfterWrite(d, n, v, CLEAN, MOVED), a)
    ensures var d' := AfterAttempt(AfterWrite(d, n, v, CLEAN, MOVED), a);
            && (Safe(d', n) <==> HasSuffix(n, ".json"))
            && Exposed(d', n) == d.At(Primary(n))
  {
    var d' := AfterWrite(d, n, v, CLEAN, MOVED);
    CrashBehindMove(d, n, v);
    if RecoverableName(n) {
      AttemptIsAllOrPending(d', a.power, a.stamp, a.order, a.faults, n);
    } else {
      QuarantineTouchesNoCopy(d', a);
    }
  }

  lemma CrashBehindMove(d: Directory, n: string, v: Payload)
    requires AcceptsName(n) && Primary(n) in d.files
    ensures var d' := AfterWrite(d, n, v, CLEAN, MOVED);
            && d'.At(Primary(n)) == None && d'.At(Backup(n)) == d.At(Primary(n))
            && d'.journal == Entry(JournalFor(d, n, "prepared"))
  {
    PrepareStops(d, MOVED, n, v, CLEAN);
    var r1 := Prepare(Run(d, MOVED), n, v, CLEAN).0;
    var r2 := MoveAside(r1, n, JournalFor(d, n, "prepared"), CLEAN).0;
    assert r2.power == 0;
  }

  /**
   When an installed write is really the one that reads back: always, until the counter is exhausted. Then the
   next write wraps to generation one and reports success, and a reader is still given the old primary, unless
   that one's generation was no higher.
   */
  lemma CommittedWriteReadsIff(d: Directory, n: string, v: Payload, f: WriteFaults, power: nat)
    requires RecoverableName(n) && Installs(d, n, f, power) && Decodable(d.At(Primary(n)))
    ensures Exposed(AfterWrite(d, n, v, f, power), n) == Some(NewContent(d, n, v)) <==>
              Headroom(d, n) || GenerationOf(d.At(Primary(n))) <= 1
  {
    hide Write, Installs, Stranded;
    WriteStops(d, power, n, v, f);
  }
}
