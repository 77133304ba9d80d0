/**
 The desktop store itself: `writeJSON`, `readJSON` and recovery as step-by-step file operations on a disk, and the
 mutators that publish a value in memory once it is on disk. Each is proved against the value-level functions of
 the other store modules.
 */
module Store {
  import opened Wrappers
  import opened Sequences
  import opened StateDirectory
  import opened JournalRecovery
  import opened AtomicWrite
  import opened StoreRuns

  /** The state directory as the operating system changes it, until the power goes. */
  class Disk {
    var dir: Directory
    var power: nat

    constructor (d: Directory, p: nat)
      ensures State() == Run(d, p)
    {
      dir, power := d, p;
    }

    ghost function State(): Run
      reads this
    {
      Run(dir, power)
    }

    method Spend(d: Directory)
      modifies this
      ensures State() == Step(old(State()), d)
    {
      if power > 0 {
        dir, power := d, power - 1;
      }
    }

    method PutFile(p: Path, c: Content)
      modifies this
      ensures State() == Put(old(State()), p, c)
    {
      Spend(dir.With(p, c));
    }

    method RemoveFile(p: Path)
      modifies this
      ensures State() == Remove(old(State()), p)
    {
      Spend(dir.Without(p));
    }

    method RenameFile(p: Path, q: Path, fails: bool) returns (ok: bool)
      modifies this
      ensures (State(), ok) == Rename(old(State()), p, q, fails)
    {
      ok := !fails && p in dir.files;
      if ok {
        Spend(dir.Renamed(p, q));
      }
    }

    method ReplaceJournal(j: JournalFile)
      modifies this
      ensures State() == SetJournal(old(State()), j)
    {
      Spend(dir.(journal := j));
    }
  }

  datatype ReadResult = Loaded(value: Payload, migrated: bool) | NotFound | Unreadable

  datatype MetricSample = MetricSample(name: string, value: real, observedAt: int)

  const METRIC_LIMIT: nat := 2000

  const METRICS_FILE: string := "metrics.json"
  const AGENTS_FILE: string := "agents.json"

  function Stamped(m: MetricSample, now: int): MetricSample {
    if m.observedAt == 0 then m.(observedAt := now) else m
  }

  /** The window with one more sample: stamped if it has no time, and without the oldest if that would be too many. */
  function WithSample(samples: seq<MetricSample>, m: MetricSample, now: int): seq<MetricSample> {
    var next := samples + [Stamped(m, now)];
    if |next| > METRIC_LIMIT then next[|next| - METRIC_LIMIT..] else next
  }

  /**
   The window always ends with the sample just added, with its own time if it has one, after the latest of the
   earlier ones in their order.
   */
  lemma WindowKeepsLatest(samples: seq<MetricSample>, m: MetricSample, now: int)
    requires |samples| <= METRIC_LIMIT
    ensures var w := WithSample(samples, m, now);
            && 0 < |w| <= 2000
            && w[|w| - 1].name == m.name && w[|w| - 1].value == m.value
            && w[|w| - 1].observedAt == (if m.observedAt != 0 then m.observedAt else now)
            && w[..|w| - 1] == samples[|samples| + 1 - |w|..]
            && (|samples| < METRIC_LIMIT ==> |w| == |samples| + 1)
  {
  }

  class StateStore<Agents> {
    const disk: Disk
    const encodeMetrics: seq<MetricSample> -> Payload
    const encodeAgents: Agents -> Payload
    var metrics: seq<MetricSample>
    var agents: Agents
    var loadIssues: seq<string>

    constructor (disk: Disk, encodeMetrics: seq<MetricSample> -> Payload, encodeAgents: Agents -> Payload,
                 agents: Agents)
      ensures this.disk == disk && this.encodeMetrics == encodeMetrics && this.encodeAgents == encodeAgents
      ensures metrics == [] && this.agents == agents && loadIssues == []
    {
      this.disk, this.encodeMetrics, this.encodeAgents := disk, encodeMetrics, encodeAgents;
      this.agents, metrics, loadIssues := agents, [], [];
    }

    method WritePersistenceJournal(e: JournalEntry, o: JournalOutcome) returns (ok: bool)
      modifies disk
      ensures (disk.State(), ok) == WriteJournal(old(disk.State()), e, o)
    {
      if o.OpenFailed? {
        return false;
      }
      disk.ReplaceJournal(Torn);
      if o.WriteFailed? {
        return false;
      }
      disk.ReplaceJournal(Entry(e));
      return o.Written?;
    }

    method ClearPersistenceJournal()
      modifies disk
      ensures disk.State() == SetJournal(old(disk.State()), NoJournal)
    {
      disk.ReplaceJournal(NoJournal);
    }

    /** The copies are tried in order of generation, the primary first on a tie. */
    method ReadJSON(n: string) returns (result: ReadResult)
      ensures result == match Exposed(disk.dir, n)
                        case Some(c) => Loaded(c.Decoded().value, c.Legacy?)
                        case None =>
                          if Primary(n) !in disk.dir.files && Backup(n) !in disk.dir.files then NotFound else Unreadable
    {
      var paths := [Primary(n), Backup(n)];
      if GenerationOf(disk.dir.At(Backup(n))) > GenerationOf(disk.dir.At(Primary(n))) {
        paths := [Backup(n), Primary(n)];
      }
      var missing := 0;
      for i := 0 to |paths|
        invariant forall j | 0 <= j < i :: !Decodable(disk.dir.At(paths[j]))
        invariant missing == (if 0 < i && paths[0] !in disk.dir.files then 1 else 0)
                             + (if 1 < i && paths[1] !in disk.dir.files then 1 else 0)
      {
        match disk.dir.At(paths[i]) {
          case None =>
            missing := missing + 1;
          case Some(c) =>
            if c.Decoded().Some? {
              return Loaded(c.Decoded().value, c.Legacy?);
            }
        }
      }
      assert !Decodable(disk.dir.At(paths[0])) && !Decodable(disk.dir.At(paths[1]));
      assert missing == 2 <==> paths[0] !in disk.dir.files && paths[1] !in disk.dir.files;
      result := if missing == |paths| then NotFound else Unreadable;
    }

    method PrepareWrite(n: string, v: Payload, e: JournalEntry, f: WriteFaults) returns (ok: bool)
      requires e == JournalFor(disk.dir, n, "prepared")
      modifies disk
      ensures (disk.State(), ok) == Prepare(old(disk.State()), n, v, f)
    {
      var next := Envelope(e.generation, Some(v));
      if f.openTemp {
        return false;
      }
      disk.PutFile(Temp(n), Damaged);
      if f.writeTemp {
        disk.RemoveFile(Temp(n));
        return false;
      }
      disk.PutFile(Temp(n), next);
      ok := WritePersistenceJournal(e, f.prepare);
      if !ok {
        disk.RemoveFile(Temp(n));
      }
    }

    method MovePrimaryAside(n: string, e: JournalEntry, f: WriteFaults) returns (ok: bool)
      modifies disk
      ensures (disk.State(), ok) == MoveAside(old(disk.State()), n, e, f)
    {
      disk.RemoveFile(Backup(n));
      if f.stat {
        disk.RemoveFile(Temp(n));
        return false;
      }
      if Primary(n) in disk.dir.files {
        ok := disk.RenameFile(Primary(n), Backup(n), f.moveAside);
        if !ok {
          disk.RemoveFile(Temp(n));
          ClearPersistenceJournal();
          return;
        }
        ok := WritePersistenceJournal(e.(phase := "primary-backed-up"), f.journalMoved);
        if !ok {
          var _ := disk.RenameFile(Backup(n), Primary(n), f.undoMove);
          disk.RemoveFile(Temp(n));
          ClearPersistenceJournal();
          return;
        }
      }
      return true;
    }

    method WriteJSON(n: string, v: Payload, f: WriteFaults) returns (ok: bool)
      modifies disk
      ensures (disk.State(), ok) == Write(old(disk.State()), n, v, f)
    {
      if !AcceptsName(n) {
        return false;
      }
      var hadPrimary := Primary(n) in disk.dir.files;
      var e := JournalFor(disk.dir, n, "prepared");
      ok := PrepareWrite(n, v, e, f);
      if !ok {
        return;
      }
      ok := MovePrimaryAside(n, e, f);
      if !ok {
        return;
      }
      ok := disk.RenameFile(Temp(n), Primary(n), f.replace);
      if !ok {
        if hadPrimary {
          var _ := disk.RenameFile(Backup(n), Primary(n), f.undoReplace);
        }
        disk.RemoveFile(Temp(n));
        ClearPersistenceJournal();
        return;
      }
      ok := WritePersistenceJournal(e.(phase := "committed"), f.commit);
      if ok {
        ClearPersistenceJournal();
      }
    }

    method QuarantinePersistenceJournal(stamp: string, order: seq<string>, f: RecoveryFaults) returns (ok: bool)
      modifies disk, this`loadIssues
      ensures (disk.State(), ok) == Quarantine(old(disk.State()), stamp, order, f)
      ensures loadIssues == if ok then old(loadIssues) + [JOURNAL_NAME] else old(loadIssues)
    {
      if f.setAside {
        return false;
      }
      disk.Spend(disk.dir.(journal := NoJournal, quarantined := disk.dir.quarantined[stamp := disk.dir.journal]));
      ghost var start := disk.State();
      for i := 0 to |order|
        invariant loadIssues == old(loadIssues)
        invariant RemoveTemps(start, order) == RemoveTemps(disk.State(), order[i..])
      {
        assert order[i..][0] == order[i] && order[i..][1..] == order[i + 1..];
        disk.RemoveFile(Temp(order[i]));
      }
      loadIssues := loadIssues + [JOURNAL_NAME];
      return true;
    }

    method RecoverFile(n: string, f: RecoveryFaults) returns (ok: bool)
      modifies disk
      ensures (disk.State(), ok) == RecoverTarget(old(disk.State()), n, f)
    {
      var p, b := disk.dir.At(Primary(n)), disk.dir.At(Backup(n));
      if GenerationOf(b) > GenerationOf(p) {
        disk.RemoveFile(Stale(n));
        if p.Some? {
          var _ := disk.RenameFile(Primary(n), Stale(n), f.moveStale);
        }
        ok := disk.RenameFile(Backup(n), Primary(n), f.promote);
        if !ok {
          return;
        }
        disk.RemoveFile(Stale(n));
      } else if p.None? && b.Some? {
        ok := disk.RenameFile(Backup(n), Primary(n), f.promote);
        if !ok {
          return;
        }
      }
      disk.RemoveFile(Temp(n));
      ClearPersistenceJournal();
      return true;
    }

    method RecoverPersistenceJournal(stamp: string, order: seq<string>, f: RecoveryFaults) returns (ok: bool)
      modifies disk, this`loadIssues
      ensures (disk.State(), ok) == Recover(old(disk.State()), stamp, order, f)
    {
      match disk.dir.journal {
        case NoJournal =>
          return true;
        case Torn =>
          if f.readJournal {
            return false;
          }
          ok := QuarantinePersistenceJournal(stamp, order, f);
        case Entry(e) =>
          if f.readJournal {
            return false;
          }
          if ValidJournal(e) {
            ok := RecoverFile(e.file, f);
          } else {
            ok := QuarantinePersistenceJournal(stamp, order, f);
          }
      }
    }

    /** A sample is in memory once the whole new window is on disk, and not before. */
    method AddMetric(m: MetricSample, now: int, f: WriteFaults) returns (ok: bool)
      modifies this`metrics, disk
      ensures var next := WithSample(old(metrics), m, now);
              && (disk.State(), ok) == Write(old(disk.State()), METRICS_FILE, encodeMetrics(next), f)
              && metrics == if ok then next else old(metrics)
    {
      var next := WithSample(metrics, m, now);
      ok := WriteJSON(METRICS_FILE, encodeMetrics(next), f);
      if ok {
        metrics := next;
      }
    }

    /** Read-modify-write of the agent state; the change itself may fail, and then nothing is written. */
    method MutateAgents(change: Agents -> Option<Agents>, f: WriteFaults) returns (ok: bool)
      modifies this`agents, disk
      ensures match change(old(agents))
              case None => !ok && agents == old(agents) && disk.State() == old(disk.State())
              case Some(v) =>
                && (disk.State(), ok) == Write(old(disk.State()), AGENTS_FILE, encodeAgents(v), f)
                && agents == if ok then v else old(agents)
    {
      match change(agents) {
        case None =>
          return false;
        case Some(v) =>
          ok := WriteJSON(AGENTS_FILE, encodeAgents(v), f);
          if ok {
            agents := v;
          }
      }
    }
  }

  // ---- Calls of mutators ----------------------------------------------------

  /** A call of a mutator: the file and the value it writes, and what its environment does. */
  datatype Call = Call(name: string, value: Payload, faults: WriteFaults)

  /** Enough file operations for any write to finish. */
  const AMPLE: nat := 16

  /** The disk, and for each file the value in memory, after calls that the process survives. */
  datatype Cells = Cells(dir: Directory, memory: map<string, Payload>)

  function Perform(c: Cells, call: Call): Cells {
    var (r, ok) := Write(Run(c.dir, AMPLE), call.name, call.value, call.faults);
    Cells(r.dir, if ok then c.memory[call.name := call.value] else c.memory)
  }

  function PerformAll(c: Cells, calls: seq<Call>): Cells {
    if calls == [] then c else Perform(PerformAll(c, calls[..|calls| - 1]), calls[|calls| - 1])
  }

  predicate Succeeds(d: Directory, call: Call) {
    Write(Run(d, AMPLE), call.name, call.value, call.faults).1
  }

  predicate Takes(d: Directory, call: Call) {
    Installs(d, call.name, call.faults, AMPLE)
  }

  /** A call succeeds exactly when its value was installed and the commit was journalled. */
  lemma SucceedsIff(d: Directory, call: Call)
    requires AcceptsName(call.name) ==> RecoverableName(call.name)
    ensures Succeeds(d, call) <==> Takes(d, call) && call.faults.commit == Written
    ensures Write(Run(d, AMPLE), call.name, call.value, call.faults).0.power > 0
  {
    var n, f := call.name, call.faults;
    if AcceptsName(n) {
      PrepareStops(d, AMPLE, n, call.value, f);
      var (r1, prepared) := Prepare(Run(d, AMPLE), n, call.value, f);
      if prepared && !f.stat && Primary(n) in d.files && !f.moveAside {
        MoveAsideStops(d, r1, n, call.value, f);
      }
    }
  }

  /** The last call on the file `n` whose value reached the primary, if any. */
  function LastInstalled(c: Cells, n: string, calls: seq<Call>): (last: Option<nat>)
    ensures last.Some? ==> last.value < |calls| && calls[last.value].name == n
  {
    if calls == [] then None
    else
      var k := |calls| - 1;
      if calls[k].name == n && Takes(PerformAll(c, calls[..k]).dir, calls[k]) then Some(k)
      else LastInstalled(c, n, calls[..k])
  }

  function LastSucceeded(c: Cells, n: string, calls: seq<Call>): (last: Option<nat>)
    ensures last.Some? ==> last.value < |calls| && calls[last.value].name == n
  {
    if calls == [] then None
    else
      var k := |calls| - 1;
      if calls[k].name == n && Succeeds(PerformAll(c, calls[..k]).dir, calls[k]) then Some(k)
      else LastSucceeded(c, n, calls[..k])
  }

  /**
   Names are ones recovery accepts; no call exhausts a counter or fails twice around the move of a readable
   primary.
   */
  predicate BenignCalls(c: Cells, calls: seq<Call>) {
    calls != [] ==>
      var earlier, call := calls[..|calls| - 1], calls[|calls| - 1];
      BenignCalls(c, earlier) && BenignCall(PerformAll(c, earlier).dir, call)
  }

  predicate BenignCall(d: Directory, call: Call) {
    && (AcceptsName(call.name) ==> RecoverableName(call.name))
    && Headroom(d, call.name)
    && !(Stranded(d, call.name, call.faults, AMPLE) && Decodable(d.At(Primary(call.name))))
  }

  ghost predicate AllSafe(d: Directory) {
    forall n | RecoverableName(n) :: Safe(d, n)
  }

  /** The file reads as the value. */
  predicate Reads(d: Directory, n: string, v: Payload) {
    Exposed(d, n).Some? && Exposed(d, n).value.Decoded() == Some(v)
  }

  /** One call: memory follows success, the disk follows installation, and other files are as they were. */
  lemma PerformStep(c: Cells, call: Call, n: string)
    requires AllSafe(c.dir) && BenignCall(c.dir, call) && RecoverableName(n)
    ensures var c' := Perform(c, call);
            && AllSafe(c'.dir)
            && Exposed(c'.dir, n) ==
               if call.name == n && Takes(c.dir, call) then Some(NewContent(c.dir, n, call.value))
               else Exposed(c.dir, n)
    ensures call.name == n && Takes(c.dir, call) ==> Reads(Perform(c, call).dir, n, call.value)
    ensures Succeeds(c.dir, call) <==> Takes(c.dir, call) && call.faults.commit == Written
    ensures Perform(c, call).memory ==
            if Succeeds(c.dir, call) then c.memory[call.name := call.value] else c.memory
  {
    hide Write, Installs, Stranded, Exposed, Safe;
    SucceedsIff(c.dir, call);
    var s, cells := System(c.dir, true), (m: string) => Exposed(c.dir, m);
    SaveRefines(s, cells, Save(call.name, call.value, call.faults, AMPLE));
  }

  lemma OneMoreCall(c: Cells, n: string, calls: seq<Call>, call: Call)
    ensures var c', longer := PerformAll(c, calls), calls + [call];
            && PerformAll(c, longer) == Perform(c', call)
            && (BenignCalls(c, longer) <==> BenignCalls(c, calls) && BenignCall(c'.dir, call))
            && LastInstalled(c, n, longer) ==
               (if call.name == n && Takes(c'.dir, call) then Some(|calls|) else LastInstalled(c, n, calls))
            && LastSucceeded(c, n, longer) ==
               (if call.name == n && Succeeds(c'.dir, call) then Some(|calls|) else LastSucceeded(c, n, calls))
  {
    assert (calls + [call])[..|calls|] == calls;
  }

  /**
   Mutators refine atomic cells. After any calls on any files that the process survives, with any of their
   operations failing and one journal shared by all, each file's value in memory is that of its last call that
   reported success, and the file reads as the value of its last call that installed one, or as before if none
   did. A file need not exist before its first call.
   */
  lemma {:induction false} MutatorRefinesCell(c: Cells, n: string, calls: seq<Call>)
    requires RecoverableName(n) && AllSafe(c.dir) && BenignCalls(c, calls)
    ensures var c', succeeded := PerformAll(c, calls), LastSucceeded(c, n, calls);
            && (n in c'.memory <==> n in c.memory || succeeded.Some?)
            && (n in c'.memory ==>
                  c'.memory[n] == if succeeded.Some? then calls[succeeded.value].value else c.memory[n])
    ensures var c', installed := PerformAll(c, calls), LastInstalled(c, n, calls);
            && AllSafe(c'.dir)
            && match installed {
                 case None => Exposed(c'.dir, n) == Exposed(c.dir, n)
                 case Some(k) => Reads(c'.dir, n, calls[k].value)
               }
  {
    if calls != [] {
      hide Perform, PerformAll, LastInstalled, LastSucceeded, Exposed, Reads, Takes, Succeeds, AllSafe, BenignCalls,
        BenignCall;
      var before, call := calls[..|calls| - 1], calls[|calls| - 1];
      assert calls == before + [call];
      OneMoreCall(c, n, before, call);
      MutatorRefinesCell(c, n, before);
      PerformStep(PerformAll(c, before), call, n);
    }
  }

  /** Memory has a value for the file, and the file reads as it. */
  predicate Agrees(c: Cells, n: string) {
    n in c.memory && Reads(c.dir, n, c.memory[n])
  }

  /** The last value installed is the one memory has: that of the last success, or the first one if there is none. */
  predicate LastsMeet(c: Cells, n: string, calls: seq<Call>) {
    match (LastInstalled(c, n, calls), LastSucceeded(c, n, calls))
    case (None, _) => Agrees(c, n)
    case (Some(k), Some(j)) => calls[j].value == calls[k].value
    case (Some(k), None) => n in c.memory && c.memory[n] == calls[k].value
  }

  /**
   After any such calls memory and disk agree on a file if and only if the last call that installed a value is the
   last one that succeeded, or wrote what memory had anyway. A success never comes after the last installation.
   */
  lemma {:induction false} MemoryAgreesIff(c: Cells, n: string, calls: seq<Call>)
    requires RecoverableName(n) && AllSafe(c.dir) && BenignCalls(c, calls)
    ensures Agrees(PerformAll(c, calls), n) <==> LastsMeet(c, n, calls)
    ensures var installed, succeeded := LastInstalled(c, n, calls), LastSucceeded(c, n, calls);
            succeeded.Some? ==> installed.Some? && succeeded.value <= installed.value
  {
    hide Exposed, PerformAll, AllSafe, BenignCalls, LastInstalled, LastSucceeded;
    MutatorRefinesCell(c, n, calls);
    SuccessesAreInstalled(c, n, calls);
  }

  lemma {:induction false} SuccessesAreInstalled(c: Cells, n: string, calls: seq<Call>)
    requires BenignCalls(c, calls)
    ensures var installed, succeeded := LastInstalled(c, n, calls), LastSucceeded(c, n, calls);
            succeeded.Some? ==> installed.Some? && succeeded.value <= installed.value
  {
    if calls != [] {
      hide Perform, Takes, Succeeds;
      var k := |calls| - 1;
      SuccessesAreInstalled(c, n, calls[..k]);
      SucceedsIff(PerformAll(c, calls[..k]).dir, calls[k]);
    }
  }

  // ---- Runs of the store ----------------------------------------------------

  datatype Op<!Agents> =
    | Sample(sample: MetricSample, now: int, faults: WriteFaults)
    | Change(change: Agents -> Option<Agents>, faults: WriteFaults)

  datatype Coding<!Agents> = Coding(metrics: seq<MetricSample> -> Payload, agents: Agents -> Payload)

  /** What the store holds in memory, and its directory. */
  datatype Book<Agents> = Book(dir: Directory, metrics: seq<MetricSample>, agents: Agents)

  /** The write an operation comes to, if any. */
  function CallOf<Agents>(b: Book<Agents>, op: Op<Agents>, c: Coding<Agents>): Option<Call> {
    match op
    case Sample(m, now, f) => Some(Call(METRICS_FILE, c.metrics(WithSample(b.metrics, m, now)), f))
    case Change(change, f) =>
      match change(b.agents) {
        case None => None
        case Some(v) => Some(Call(AGENTS_FILE, c.agents(v), f))
      }
  }

  predicate Works<Agents>(b: Book<Agents>, op: Op<Agents>, c: Coding<Agents>) {
    CallOf(b, op, c).Some? && Succeeds(b.dir, CallOf(b, op, c).value)
  }

  function Do<Agents>(b: Book<Agents>, op: Op<Agents>, c: Coding<Agents>): Book<Agents> {
    match CallOf(b, op, c)
    case None => b
    case Some(call) =>
      var dir := Write(Run(b.dir, AMPLE), call.name, call.value, call.faults).0.dir;
      if !Works(b, op, c) then b.(dir := dir)
      else
        match op
        case Sample(m, now, _) => b.(dir := dir, metrics := WithSample(b.metrics, m, now))
        case Change(change, _) => b.(dir := dir, agents := change(b.agents).value)
  }

  function DoAll<Agents>(b: Book<Agents>, ops: seq<Op<Agents>>, c: Coding<Agents>): Book<Agents> {
    if ops == [] then b else Do(DoAll(b, ops[..|ops| - 1], c), ops[|ops| - 1], c)
  }

  function CallsOf<Agents>(b: Book<Agents>, ops: seq<Op<Agents>>, c: Coding<Agents>): seq<Call> {
    if ops == [] then []
    else
      var call := CallOf(DoAll(b, ops[..|ops| - 1], c), ops[|ops| - 1], c);
      CallsOf(b, ops[..|ops| - 1], c) + if call.Some? then [call.value] else []
  }

  /** The samples whose call succeeded, with their times. */
  function Recorded<Agents>(b: Book<Agents>, ops: seq<Op<Agents>>, c: Coding<Agents>): seq<MetricSample> {
    if ops == [] then []
    else
      var op := ops[|ops| - 1];
      Recorded(b, ops[..|ops| - 1], c)
      + if op.Sample? && Works(DoAll(b, ops[..|ops| - 1], c), op, c) then [Stamped(op.sample, op.now)] else []
  }

  /** The agent state after the changes whose call succeeded, and no others. */
  function Changed<Agents>(b: Book<Agents>, ops: seq<Op<Agents>>, c: Coding<Agents>): Agents {
    if ops == [] then b.agents
    else
      var op, before := ops[|ops| - 1], Changed(b, ops[..|ops| - 1], c);
      if op.Change? && Works(DoAll(b, ops[..|ops| - 1], c), op, c) && op.change(before).Some?
      then op.change(before).value else before
  }

  lemma WindowOfLonger(all: seq<MetricSample>, m: MetricSample, now: int)
    ensures WithSample(Last(all, METRIC_LIMIT), m, now) == Last(all + [Stamped(m, now)], METRIC_LIMIT)
    ensures WithSample(all, m, now) == Last(all + [Stamped(m, now)], METRIC_LIMIT)
  {
  }

  /**
   Over any run of samples and agent changes with failures, the window in memory is the latest 2000 samples whose
   call succeeded, after those from before, and the agent state is the result of the successful changes in order.
   */
  lemma {:induction false} MemoryIsWhatSucceeded<Agents>(b: Book<Agents>, ops: seq<Op<Agents>>, c: Coding<Agents>)
    ensures var b', kept := DoAll(b, ops, c), Recorded(b, ops, c);
            && b'.metrics == (if kept == [] then b.metrics else Last(b.metrics + kept, 2000))
            && b'.agents == Changed(b, ops, c)
  {
    if ops != [] {
      hide Write, WithSample, Last;
      var before, op := ops[..|ops| - 1], ops[|ops| - 1];
      MemoryIsWhatSucceeded(b, before, c);
      if op.Sample? {
        var kept, x := Recorded(b, before, c), Stamped(op.sample, op.now);
        WindowOfLonger(b.metrics + kept, op.sample, op.now);
        assert (b.metrics + kept) + [x] == b.metrics + (kept + [x]);
        assert b.metrics + [] == b.metrics && [] + [x] == [x];
      }
    }
  }

  /** The store as cells: the two files, and for each what memory holds. */
  function CellsOf<Agents>(b: Book<Agents>, c: Coding<Agents>): Cells {
    Cells(b.dir, map[METRICS_FILE := c.metrics(b.metrics), AGENTS_FILE := c.agents(b.agents)])
  }

  lemma DoIsItsCall<Agents>(b: Book<Agents>, op: Op<Agents>, c: Coding<Agents>)
    ensures match CallOf(b, op, c)
            case None => Do(b, op, c) == b
            case Some(call) => Perform(CellsOf(b, c), call) == CellsOf(Do(b, op, c), c)
  {
    hide Write, WithSample;
    StoreFilesAreTwo();
  }

  /** A run of the store is the run of calls that its operations come to, so each file follows its own cell. */
  lemma {:induction false} RunIsItsCalls<Agents>(b: Book<Agents>, ops: seq<Op<Agents>>, c: Coding<Agents>)
    ensures PerformAll(CellsOf(b, c), CallsOf(b, ops, c)) == CellsOf(DoAll(b, ops, c), c)
    ensures BenignOps(b, ops, c) ==> BenignCalls(CellsOf(b, c), CallsOf(b, ops, c))
  {
    if ops != [] {
      hide CallOf, Do, Perform, CellsOf, BenignCall;
      var before := ops[..|ops| - 1];
      RunIsItsCalls(b, before, c);
      DoIsItsCall(DoAll(b, before, c), ops[|ops| - 1], c);
      CellsHaveDirectory(DoAll(b, before, c), c);
      var calls, call := CallsOf(b, before, c), CallOf(DoAll(b, before, c), ops[|ops| - 1], c);
      if call.Some? {
        assert (calls + [call.value])[..|calls|] == calls;
      } else {
        assert calls + [] == calls;
      }
    }
  }

  lemma CellsHaveDirectory<Agents>(b: Book<Agents>, c: Coding<Agents>)
    ensures CellsOf(b, c).dir == b.dir
  {
  }

  /** Memory, encoded, is what the two files read as. */
  ghost predicate OnDisk<Agents>(b: Book<Agents>, c: Coding<Agents>) {
    && Reads(b.dir, METRICS_FILE, c.metrics(b.metrics))
    && Reads(b.dir, AGENTS_FILE, c.agents(b.agents))
  }

  /** No operation exhausts a counter or fails twice around the move of a readable primary. */
  predicate BenignOps<Agents>(b: Book<Agents>, ops: seq<Op<Agents>>, c: Coding<Agents>) {
    ops != [] ==>
      var earlier := ops[..|ops| - 1];
      var call := CallOf(DoAll(b, earlier, c), ops[|ops| - 1], c);
      BenignOps(b, earlier, c) && (call.Some? ==> BenignCall(DoAll(b, earlier, c).dir, call.value))
  }

  lemma StoreFilesAreTwo()
    ensures RecoverableName(METRICS_FILE) && RecoverableName(AGENTS_FILE) && METRICS_FILE != AGENTS_FILE
  {
    KnownFilesAreRecoverable();
    assert METRICS_FILE[0] == 'm' && AGENTS_FILE[0] == 'a';
  }

  /**
   Memory and disk. After any run of samples and changes with failures, the two files read as the values in memory
   if and only if on each of them the last installed value is that of the last success.
   */
  lemma {:induction false} MemoryIsOnDiskIff<Agents>(b: Book<Agents>, ops: seq<Op<Agents>>, c: Coding<Agents>)
    requires AllSafe(b.dir) && BenignOps(b, ops, c)
    ensures var cells, calls := CellsOf(b, c), CallsOf(b, ops, c);
            OnDisk(DoAll(b, ops, c), c) <==>
              LastsMeet(cells, METRICS_FILE, calls) && LastsMeet(cells, AGENTS_FILE, calls)
  {
    hide DoAll, CallsOf, PerformAll, LastsMeet, Reads, AllSafe, BenignOps, BenignCalls;
    StoreFilesAreTwo();
    RunIsItsCalls(b, ops, c);
    MemoryAgreesIff(CellsOf(b, c), METRICS_FILE, CallsOf(b, ops, c));
    MemoryAgreesIff(CellsOf(b, c), AGENTS_FILE, CallsOf(b, ops, c));
  }

  predicate Journalled(calls: seq<Call>) {
    forall i | 0 <= i < |calls| :: calls[i].faults.commit == Written
  }

  lemma {:induction false} JournalledMeet(c: Cells, n: string, calls: seq<Call>)
    requires BenignCalls(c, calls) && Journalled(calls)
    ensures LastInstalled(c, n, calls) == LastSucceeded(c, n, calls)
  {
    if calls != [] {
      hide Perform, Takes, Succeeds;
      var k := |calls| - 1;
      JournalledMeet(c, n, calls[..k]);
      SucceedsIff(PerformAll(c, calls[..k]).dir, calls[k]);
    }
  }

  lemma {:induction false} CallsAreJournalled<Agents>(b: Book<Agents>, ops: seq<Op<Agents>>, c: Coding<Agents>)
    requires forall i | 0 <= i < |ops| :: ops[i].faults.commit == Written
    ensures Journalled(CallsOf(b, ops, c))
  {
    if ops != [] {
      CallsAreJournalled(b, ops[..|ops| - 1], c);
    }
  }

  /** So they agree after every run in which the commit journals were written, whatever else failed. */
  lemma {:induction false} MemoryIsOnDisk<Agents>(b: Book<Agents>, ops: seq<Op<Agents>>, c: Coding<Agents>)
    requires AllSafe(b.dir) && OnDisk(b, c) && BenignOps(b, ops, c)
    requires forall i | 0 <= i < |ops| :: ops[i].faults.commit == Written
    ensures OnDisk(DoAll(b, ops, c), c)
  {
    hide DoAll, CallsOf, LastInstalled, LastSucceeded, Reads, AllSafe, BenignOps, BenignCalls;
    var cells, calls := CellsOf(b, c), CallsOf(b, ops, c);
    StoreFilesAreTwo();
    MemoryIsOnDiskIff(b, ops, c);
    RunIsItsCalls(b, ops, c);
    CallsAreJournalled(b, ops, c);
    JournalledMeet(cells, METRICS_FILE, calls);
    JournalledMeet(cells, AGENTS_FILE, calls);
  }
}
