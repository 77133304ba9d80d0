/** Startup recovery from the persistence journal. */
module JournalRecovery {
  import opened Wrappers
  import opened StateDirectory

  /** The fallible operations of recovery that the environment may make fail. */
  datatype RecoveryFaults = RecoveryFaults(readJournal: bool, setAside: bool, moveStale: bool, promote: bool)

  const NO_FAULTS := RecoveryFaults(false, false, false, false)

  predicate ValidJournal(e: JournalEntry) {
    && e.version == 1
    && RecoverableName(e.file)
    && e.phase in {"prepared", "primary-backed-up", "committed"}
  }

  /** The journal names the file it belongs to and recovery will believe it. */
  predicate Guards(j: JournalFile, n: string) {
    j.Entry? && ValidJournal(j.entry) && j.entry.file == n
  }

  function Finish(r: Run, n: string): Run {
    SetJournal(Remove(r, Temp(n)), NoJournal)
  }

  function RecoverTarget(r: Run, n: string, f: RecoveryFaults): (Run, bool) {
    var p, b := r.dir.At(Primary(n)), r.dir.At(Backup(n));
    if GenerationOf(b) > GenerationOf(p) then
      var r1 := Remove(r, Stale(n));
      var r2 := if p.Some? then Rename(r1, Primary(n), Stale(n), f.moveStale).0 else r1;
      var (r3, ok) := Rename(r2, Backup(n), Primary(n), f.promote);
      if !ok then (r3, false) else (Finish(Remove(r3, Stale(n)), n), true)
    else if p.None? && b.Some? then
      var (r1, ok) := Rename(r, Backup(n), Primary(n), f.promote);
      if !ok then (r1, false) else (Finish(r1, n), true)
    else
      (Finish(r, n), true)
  }

  function RemoveTemps(r: Run, order: seq<string>): Run
    decreases order
  {
    if order == [] then r else RemoveTemps(Remove(r, Temp(order[0])), order[1..])
  }

  function Quarantine(r: Run, stamp: string, order: seq<string>, f: RecoveryFaults): (Run, bool) {
    if f.setAside then (r, false)
    else
      var moved := r.dir.(journal := NoJournal, quarantined := r.dir.quarantined[stamp := r.dir.journal]);
      (RemoveTemps(Step(r, moved), order), true)
  }

  /**
   One recovery attempt. `stamp` is the clock reading in the quarantine file's name and `order` the order in which
   the known state files happen to be visited.
   */
  function Recover(r: Run, stamp: string, order: seq<string>, f: RecoveryFaults): (Run, bool) {
    match r.dir.journal
    case NoJournal => (r, true)
    case Torn => if f.readJournal then (r, false) else Quarantine(r, stamp, order, f)
    case Entry(e) =>
      if f.readJournal then (r, false)
      else if ValidJournal(e) then RecoverTarget(r, e.file, f)
      else Quarantine(r, stamp, order, f)
  }

  // ---- What recovery is for -------------------------------------------------

  predicate PromotesBackup(d: Directory, n: string) {
    d.At(Primary(n)).None? || GenerationOf(d.At(Backup(n))) > GenerationOf(d.At(Primary(n)))
  }

  /** The copy that survives: the higher generation, the primary on a tie; never the temporary file. */
  function Winner(d: Directory, n: string): Option<Content> {
    if PromotesBackup(d, n) then d.At(Backup(n)) else d.At(Primary(n))
  }

  function BackupLeft(d: Directory, n: string): Option<Content> {
    if PromotesBackup(d, n) then None else d.At(Backup(n))
  }

  /** The directory a finished recovery of `n` leaves, as seen from the directory `d` it started in. */
  ghost predicate RecoveredFrom(d: Directory, d': Directory, n: string) {
    && d'.At(Primary(n)) == Winner(d, n)
    && d'.At(Backup(n)) == BackupLeft(d, n)
    && d'.At(Temp(n)) == None
    && d'.journal == NoJournal
    && d'.quarantined == d.quarantined
    && OthersUntouched(d, d', n)
  }

  /** An unfinished recovery of `n`: the journal still stands and the same copy would win. */
  ghost predicate RecoveryPending(d: Directory, d': Directory, n: string) {
    && d'.journal == d.journal
    && Winner(d', n) == Winner(d, n)
    && BackupLeft(d', n) == BackupLeft(d, n)
    && (d'.At(Primary(n)) == d.At(Primary(n)) || d'.At(Primary(n)).None? || d'.At(Primary(n)) == d.At(Backup(n)))
    && (d'.At(Backup(n)) == d.At(Backup(n)) || d'.At(Backup(n)).None?)
    && d'.quarantined == d.quarantined
    && OthersUntouched(d, d', n)
  }

  lemma NothingIsPending(d: Directory, n: string)
    ensures RecoveryPending(d, d, n)
  {
  }

  lemma StaleIsNoCopy(d: Directory, r: Run, n: string)
    requires RecoveryPending(d, r.dir, n)
    ensures var r' := Remove(r, Stale(n));
            && RecoveryPending(d, r'.dir, n)
            && r'.dir.At(Primary(n)) == r.dir.At(Primary(n)) && r'.dir.At(Backup(n)) == r.dir.At(Backup(n))
  {
  }

  lemma LoserMovesOut(d: Directory, r: Run, n: string, fails: bool)
    requires RecoveryPending(d, r.dir, n) && PromotesBackup(r.dir, n)
    ensures var r' := Rename(r, Primary(n), Stale(n), fails).0;
            RecoveryPending(d, r'.dir, n) && PromotesBackup(r'.dir, n)
  {
  }

  lemma FinishSettles(d: Directory, r: Run, n: string)
    requires RecoveryPending(d, r.dir, n)
    requires r.power > 0 ==> !PromotesBackup(r.dir, n) || r.dir.At(Backup(n)).None?
    ensures var r' := Finish(r, n);
            && (RecoveryPending(d, r'.dir, n) || RecoveredFrom(d, r'.dir, n))
            && (r'.power > 0 ==> RecoveredFrom(d, r'.dir, n))
  {
    if r.power > 0 {
      var r1 := Remove(r, Temp(n));
      assert RecoveryPending(d, r1.dir, n) && r1.dir.At(Primary(n)) == r.dir.At(Primary(n))
             && r1.dir.At(Backup(n)) == r.dir.At(Backup(n));
    }
  }

  /** Moving the winning backup into place keeps it the winner. */
  lemma PromotionKeepsWinner(d: Directory, r: Run, n: string, fails: bool)
    requires RecoveryPending(d, r.dir, n) && PromotesBackup(r.dir, n)
    ensures var (r', ok) := Rename(r, Backup(n), Primary(n), fails);
            && RecoveryPending(d, r'.dir, n)
            && (r'.power > 0 && ok ==> r'.dir.At(Backup(n)).None?)
  {
  }

  /**
   Wherever one attempt stops (power loss at any operation, or any operation failing), either nothing has been
   decided yet and the same copy would still win, or the recovery is done.
   */
  lemma AttemptIsAllOrPending(d: Directory, power: nat, stamp: string, order: seq<string>, f: RecoveryFaults,
                              n: string)
    requires Guards(d.journal, n)
    ensures var (r, ok) := Recover(Run(d, power), stamp, order, f);
            && (RecoveryPending(d, r.dir, n) || RecoveredFrom(d, r.dir, n))
            && (ok && r.power > 0 ==> RecoveredFrom(d, r.dir, n))
  {
    hide RecoveryPending, RecoveredFrom;
    var r := Run(d, power);
    NothingIsPending(d, n);
    var p, b := d.At(Primary(n)), d.At(Backup(n));
    if f.readJournal {
    } else if GenerationOf(b) > GenerationOf(p) {
      var r1 := Remove(r, Stale(n));
      StaleIsNoCopy(d, r, n);
      var r2 := if p.Some? then Rename(r1, Primary(n), Stale(n), f.moveStale).0 else r1;
      LoserMovesOut(d, r1, n, f.moveStale);
      PromotionKeepsWinner(d, r2, n, f.promote);
      var (r3, ok) := Rename(r2, Backup(n), Primary(n), f.promote);
      if ok {
        StaleIsNoCopy(d, r3, n);
        FinishSettles(d, Remove(r3, Stale(n)), n);
      }
    } else if p.None? && b.Some? {
      PromotionKeepsWinner(d, r, n, f.promote);
      var (r1, ok) := Rename(r, Backup(n), Primary(n), f.promote);
      if ok {
        FinishSettles(d, r1, n);
      }
    } else {
      FinishSettles(d, r, n);
    }
  }

  /** One start of the store: how long it lives and what its environment does to it. */
  datatype Attempt = Attempt(power: nat, stamp: string, order: seq<string>, faults: RecoveryFaults)

  function AfterAttempt(d: Directory, a: Attempt): Directory {
    Recover(Run(d, a.power), a.stamp, a.order, a.faults).0.dir
  }

  predicate Completes(d: Directory, a: Attempt) {
    var (r, ok) := Recover(Run(d, a.power), a.stamp, a.order, a.faults);
    ok && r.power > 0
  }

  function AfterAttempts(d: Directory, attempts: seq<Attempt>): Directory {
    if attempts == [] then d
    else AfterAttempt(AfterAttempts(d, attempts[..|attempts| - 1]), attempts[|attempts| - 1])
  }

  lemma PendingComposes(d: Directory, d': Directory, d'': Directory, n: string)
    requires RecoveryPending(d, d', n)
    ensures RecoveryPending(d', d'', n) ==> RecoveryPending(d, d'', n)
    ensures RecoveredFrom(d', d'', n) ==> RecoveredFrom(d, d'', n)
  {
  }

  lemma {:induction false} AttemptsArePendingOrDone(d: Directory, attempts: seq<Attempt>, n: string)
    requires Guards(d.journal, n)
    ensures var d' := AfterAttempts(d, attempts); RecoveryPending(d, d', n) || RecoveredFrom(d, d', n)
  {
    if attempts != [] {
      var before, a := AfterAttempts(d, attempts[..|attempts| - 1]), attempts[|attempts| - 1];
      AttemptsArePendingOrDone(d, attempts[..|attempts| - 1], n);
      if RecoveryPending(d, before, n) {
        AttemptIsAllOrPending(before, a.power, a.stamp, a.order, a.faults, n);
        PendingComposes(d, before, AfterAttempt(before, a), n);
      }
    }
  }

  /**
   Recovery is restartable: after any number of attempts, each interrupted anywhere or stopped by any failing
   operation, one attempt that completes leaves exactly what a single uninterrupted recovery of the same
   directory leaves, and every further attempt changes nothing.
   */
  lemma {:induction false} RecoveryConverges(d: Directory, attempts: seq<Attempt>, last: Attempt, again: Attempt,
                                             n: string)
    requires Guards(d.journal, n)
    requires Completes(AfterAttempts(d, attempts), last)
    ensures var d' := AfterAttempt(AfterAttempts(d, attempts), last);
            RecoveredFrom(d, d', n) && AfterAttempt(d', again) == d'
  {
    var before := AfterAttempts(d, attempts);
    AttemptsArePendingOrDone(d, attempts, n);
    if RecoveryPending(d, before, n) {
      AttemptIsAllOrPending(before, last.power, last.stamp, last.order, last.faults, n);
      PendingComposes(d, before, AfterAttempt(before, last), n);
    }
  }

  lemma {:induction false} RemoveTempsOnlyRemovesTemps(r: Run, order: seq<string>)
    ensures var r' := RemoveTemps(r, order);
            && r'.power <= r.power
            && r'.dir.journal == r.dir.journal
            && r'.dir.quarantined == r.dir.quarantined
            && (forall p: Path :: r'.dir.At(p) == r.dir.At(p) || (p.Temp? && p.name in order && r'.dir.At(p).None?))
            && (r'.power > 0 ==> forall n | n in order :: r'.dir.At(Temp(n)).None?)
    decreases order
  {
    if order != [] {
      var r1 := Remove(r, Temp(order[0]));
      RemoveTempsOnlyRemovesTemps(r1, order[1..]);
      assert forall n | n in order :: n == order[0] || n in order[1..];
      assert r1.power > 0 ==> r1.dir.At(Temp(order[0])).None?;
    }
  }

  /**
   A journal that cannot be believed is set aside, not acted on: wherever the attempt stops, both durable copies
   of every file are as they were, and when it completes the known files have no temporary left and the bad
   journal is kept for inspection.
   */
  lemma QuarantineTouchesNoCopy(d: Directory, a: Attempt)
    requires d.journal != NoJournal && (d.journal.Entry? ==> !ValidJournal(d.journal.entry))
    ensures forall n: string ::
              && AfterAttempt(d, a).At(Primary(n)) == d.At(Primary(n))
              && AfterAttempt(d, a).At(Backup(n)) == d.At(Backup(n))
    ensures Completes(d, a) ==>
              && AfterAttempt(d, a).journal == NoJournal
              && AfterAttempt(d, a).quarantined == d.quarantined[a.stamp := d.journal]
              && (forall n | n in a.order :: AfterAttempt(d, a).At(Temp(n)).None?)
  {
    var r := Run(d, a.power);
    var moved := d.(journal := NoJournal, quarantined := d.quarantined[a.stamp := d.journal]);
    RemoveTempsOnlyRemovesTemps(Step(r, moved), a.order);
  }

  /**
   Which journals a completed recovery acts on, and which it sets aside: it acts on one of version 1 in one of the
   three phases of a write whose file is a plain `.json` name other than the journal's. Then nothing is quarantined
   and the temporary file is gone. Any other journal is kept under the attempt's stamp, and without a journal there
   is nothing to do.
   */
  lemma JournalIsQuarantinedIff(d: Directory, a: Attempt)
    requires Completes(d, a)
    ensures var d' := AfterAttempt(d, a);
            && d'.journal == NoJournal
            && match d.journal
               case NoJournal => d' == d
               case Torn => d'.quarantined == d.quarantined[a.stamp := Torn]
               case Entry(e) =>
                 if && e.version == 1
                    && (e.phase == "prepared" || e.phase == "primary-backed-up" || e.phase == "committed")
                    && e.file != "" && '/' !in e.file && e.file != ".persistence-journal.json"
                    && |e.file| >= 5 && e.file[|e.file| - 5..] == ".json"
                 then d'.quarantined == d.quarantined && d'.At(Temp(e.file)).None?
                 else d'.quarantined == d.quarantined[a.stamp := d.journal]
  {
    hide RecoverTarget, Quarantine;
    if d.journal.Entry? && ValidJournal(d.journal.entry) {
      AttemptIsAllOrPending(d, a.power, a.stamp, a.order, a.faults, d.journal.entry.file);
    } else if d.journal != NoJournal {
      QuarantineTouchesNoCopy(d, a);
    }
  }

  /**
   When an attempt that is not cut short completes: without a journal always; otherwise iff the journal can be read
   and then either moved aside, if it is torn or not one recovery acts on, or the backup put in place, if that is
   the newer copy or the only one.
   */
  lemma CompletesIff(d: Directory, a: Attempt)
    requires Recover(Run(d, a.power), a.stamp, a.order, a.faults).0.power > 0
    ensures Completes(d, a) <==>
              match d.journal
              case NoJournal => true
              case Torn => !a.faults.readJournal && !a.faults.setAside
              case Entry(e) =>
                && !a.faults.readJournal
                && if ValidJournal(e) then
                     var p, b := d.At(Primary(e.file)), d.At(Backup(e.file));
                     a.faults.promote ==>
                       GenerationOf(b) <= GenerationOf(p) && (p.Some? || b.None?)
                   else !a.faults.setAside
  {
    if d.journal.Entry? && ValidJournal(d.journal.entry) {
      hide Finish;
      var n := d.journal.entry.file;
      assert GenerationOf(d.At(Backup(n))) > 0 ==> d.At(Backup(n)).Some?;
    }
  }

  /**
   A completed recovery that puts a newer backup in place leaves no stale file; any other does not touch it. So a
   recovery interrupted before its last removal leaves one behind that no later attempt removes.
   */
  lemma StaleIsCleared(d: Directory, a: Attempt, n: string)
    requires Guards(d.journal, n) && Completes(d, a)
    ensures AfterAttempt(d, a).At(Stale(n)) ==
            if GenerationOf(d.At(Backup(n))) > GenerationOf(d.At(Primary(n))) then None else d.At(Stale(n))
  {
  }

  /**
   When a believed journal costs a reader something. A completed recovery keeps the value a reader saw unless the
   backup claims a higher generation yet does not decode while the primary does: then the readable primary is
   discarded.
   */
  lemma RecoveryKeepsExposedIff(d: Directory, d': Directory, n: string)
    requires RecoveredFrom(d, d', n)
    ensures Exposed(d', n) == Exposed(d, n) <==>
            !(&& GenerationOf(d.At(Backup(n))) > GenerationOf(d.At(Primary(n)))
              && !Decodable(d.At(Backup(n)))
              && Decodable(d.At(Primary(n))))
  {
  }

  /** An unfinished recovery costs a reader nothing either, short of that one layout. */
  lemma PendingKeepsExposed(d: Directory, d': Directory, n: string)
    requires RecoveryPending(d, d', n)
    requires GenerationOf(d.At(Backup(n))) > GenerationOf(d.At(Primary(n))) && Decodable(d.At(Primary(n))) ==>
               Decodable(d.At(Backup(n)))
    ensures Exposed(d', n) == Exposed(d, n)
  {
  }

  /**
   A completed recovery leaves a layout the next write may start from exactly when the surviving copy decodes, or
   nothing does.
   */
  lemma RecoveryRestoresSafetyIff(d: Directory, d': Directory, n: string)
    requires RecoveredFrom(d, d', n)
    ensures Safe(d', n) <==>
              Decodable(Winner(d, n)) || !Decodable(BackupLeft(d, n))
  {
  }
}
