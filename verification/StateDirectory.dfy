/**
 The state directory of the desktop store: which files a state name owns, what a file may hold, and which of its
 copies a reader sees.
 */
module StateDirectory {
  import opened Wrappers

  /** The JSON text of a state value; encoding itself is not modelled. */
  type Payload = string

  // Generations are unsigned 64-bit integers.
  const GENERATION_LIMIT: nat := 0x1_0000_0000_0000_0000
  type Generation = g: int | 0 <= g < GENERATION_LIMIT

  const JOURNAL_NAME: string := ".persistence-journal.json"

  const KNOWN_STATE_FILES: set<string> :=
    {"settings.json", "github-snapshot.json", "metrics.json", "probes.json", "agents.json"}

  /**
   What a state file may hold: a versioned envelope (whose payload may fail to decode), raw JSON from before
   envelopes existed, or bytes that are neither.
   */
  datatype Content =
    | Envelope(generation: Generation, payload: Option<Payload>)
    | Legacy(body: Payload)
    | Damaged
  {
    function Decoded(): Option<Payload> {
      match this
      case Envelope(_, p) => p
      case Legacy(b) => Some(b)
      case Damaged => None
    }
  }

  datatype JournalEntry = JournalEntry(version: int, file: string, phase: string, generation: Generation)

  /** The shared journal: absent, not parseable, or holding one entry. */
  datatype JournalFile = NoJournal | Torn | Entry(entry: JournalEntry)

  /** The four files a state name owns: `n`, `n.bak`, `n.tmp` and `n.stale`. */
  datatype Path = Primary(name: string) | Backup(name: string) | Temp(name: string) | Stale(name: string)

  datatype Directory = Directory(files: map<Path, Content>, journal: JournalFile, quarantined: map<string, JournalFile>)
  {
    function At(p: Path): Option<Content> {
      if p in files then Some(files[p]) else None
    }

    function With(p: Path, c: Content): Directory {
      this.(files := files[p := c])
    }

    function Without(p: Path): Directory {
      this.(files := files - {p})
    }

    function Renamed(p: Path, q: Path): Directory
      requires p in files
    {
      this.(files := (files - {p})[q := files[p]])
    }
  }

  function GenerationOf(c: Option<Content>): Generation {
    match c
    case Some(Envelope(g, _)) => g
    case _ => 0
  }

  predicate Decodable(c: Option<Content>) {
    c.Some? && c.value.Decoded().Some?
  }

  // ---- File names -----------------------------------------------------------

  predicate HasSuffix(s: string, suffix: string) {
    |suffix| <= |s| && s[|s| - |suffix|..] == suffix
  }

  /** The name is its own last path element. */
  predicate IsBaseName(n: string) {
    n != "" && (n == "/" || '/' !in n)
  }

  /** The names `writeJSON` agrees to write. */
  predicate AcceptsName(n: string) {
    IsBaseName(n) && n != JOURNAL_NAME
  }

  /** The names recovery agrees to repair: `writeJSON` does not ask for the extension. */
  predicate RecoverableName(n: string) {
    AcceptsName(n) && HasSuffix(n, ".json")
  }

  /** The five state files of the store are among them. */
  lemma KnownFilesAreRecoverable()
    ensures forall n | n in KNOWN_STATE_FILES :: RecoverableName(n)
  {
    forall n | n in KNOWN_STATE_FILES ensures RecoverableName(n) {
      assert n[|n| - 5..] == ".json";
      assert n[0] != JOURNAL_NAME[0];
    }
  }

  function FileName(p: Path): string {
    match p
    case Primary(n) => n
    case Backup(n) => n + ".bak"
    case Temp(n) => n + ".tmp"
    case Stale(n) => n + ".stale"
  }

  lemma SuffixOfConcat(n: string, suffix: string)
    ensures (n + suffix)[|n|..] == suffix
    ensures (n + suffix)[..|n|] == n
  {
  }

  /**
   Distinct model paths are distinct files on disk, for every name recovery accepts, and none of them is the
   journal: no state file can shadow another one's backup.
   */
  lemma {:induction false} FileNamesAreInjective(p: Path, q: Path)
    requires RecoverableName(p.name) && RecoverableName(q.name)
    ensures FileName(p) == FileName(q) <==> p == q
    ensures FileName(p) != JOURNAL_NAME
  {
    LastCharacter(p);
    LastCharacter(q);
    if FileName(p) == FileName(q) {
      assert p.Primary? <==> q.Primary?;
      assert p.Backup? <==> q.Backup?;
      assert p.Temp? <==> q.Temp?;
      var suffix := if p.Primary? then "" else if p.Backup? then ".bak" else if p.Temp? then ".tmp" else ".stale";
      assert FileName(p) == p.name + suffix && FileName(q) == q.name + suffix;
      SuffixOfConcat(p.name, suffix);
      SuffixOfConcat(q.name, suffix);
    }
    assert JOURNAL_NAME[|JOURNAL_NAME| - 1] == 'n';
  }

  lemma LastCharacter(p: Path)
    requires RecoverableName(p.name)
    ensures |FileName(p)| > 0
    ensures FileName(p)[|FileName(p)| - 1] ==
            match p { case Primary(_) => 'n' case Backup(_) => 'k' case Temp(_) => 'p' case Stale(_) => 'e' }
  {
    if p.Primary? {
      assert p.name[|p.name| - 1] == p.name[|p.name| - 5..][4];
    }
  }

  // ---- Reading --------------------------------------------------------------

  function FirstDecodable(x: Option<Content>, y: Option<Content>): Option<Content> {
    if Decodable(x) then x else if Decodable(y) then y else None
  }

  /** The copy a reader is given: the higher generation first, the primary on a tie. */
  function Exposed(d: Directory, n: string): Option<Content> {
    var p, b := d.At(Primary(n)), d.At(Backup(n));
    if GenerationOf(b) > GenerationOf(p) then FirstDecodable(b, p) else FirstDecodable(p, b)
  }

  /**
   What `Exposed` means: it finds a value whenever one copy decodes, the value comes from one of the two durable
   copies (never the temporary one), no copy that decodes is newer, and a tie goes to the primary.
   */
  lemma ExposedIsNewestDecodable(d: Directory, n: string)
    ensures Exposed(d, n).Some? <==> Decodable(d.At(Primary(n))) || Decodable(d.At(Backup(n)))
    ensures Exposed(d, n).Some? ==>
              && Decodable(Exposed(d, n))
              && (Exposed(d, n) == d.At(Primary(n)) || Exposed(d, n) == d.At(Backup(n)))
              && (forall p | p == Primary(n) || p == Backup(n) ::
                    Decodable(d.At(p)) ==> GenerationOf(d.At(p)) <= GenerationOf(Exposed(d, n)))
    ensures Decodable(d.At(Primary(n))) && GenerationOf(d.At(Primary(n))) == GenerationOf(d.At(Backup(n))) ==>
              Exposed(d, n) == d.At(Primary(n))
  {
  }

  /** A file from before envelopes stays readable, until a copy with any generation appears. */
  lemma LegacyYieldsToEnvelope(d: Directory, n: string)
    requires d.At(Primary(n)).Some? && d.At(Primary(n)).value.Legacy?
    ensures Exposed(d, n) == d.At(Primary(n)) <==>
              !(Decodable(d.At(Backup(n))) && GenerationOf(d.At(Backup(n))) > 0)
              || d.At(Backup(n)) == d.At(Primary(n))
  {
  }

  /**
   The layout a write may start from: nothing readable is at stake, or the readable value is the primary's own.
   */
  predicate Safe(d: Directory, n: string) {
    || Exposed(d, n).None?
    || (Decodable(d.At(Primary(n))) && GenerationOf(d.At(Primary(n))) >= GenerationOf(d.At(Backup(n))))
  }

  // ---- Interruptible file operations ---------------------------------------

  /**
   A computation over the directory that loses power after `power` further file operations. Once the power is gone
   the directory is frozen, so running with every `power` visits every state a crash can leave behind.
   */
  datatype Run = Run(dir: Directory, power: nat)

  function Step(r: Run, d: Directory): Run {
    if r.power == 0 then r else Run(d, r.power - 1)
  }

  function Put(r: Run, p: Path, c: Content): Run {
    Step(r, r.dir.With(p, c))
  }

  function Remove(r: Run, p: Path): Run {
    Step(r, r.dir.Without(p))
  }

  /** Renaming replaces the target; it fails when told to or when the source is missing. */
  function Rename(r: Run, p: Path, q: Path, fails: bool): (Run, bool) {
    if fails || p !in r.dir.files then (r, false) else (Step(r, r.dir.Renamed(p, q)), true)
  }

  function SetJournal(r: Run, j: JournalFile): Run {
    Step(r, r.dir.(journal := j))
  }

  /** How a journal write ends: the file may fail to open, fail after truncation, or be full and fail to sync. */
  datatype JournalOutcome = Written | OpenFailed | WriteFailed | SyncFailed

  function WriteJournal(r: Run, e: JournalEntry, o: JournalOutcome): (Run, bool) {
    match o
    case OpenFailed => (r, false)
    case WriteFailed => (SetJournal(r, Torn), false)
    case SyncFailed => (SetJournal(SetJournal(r, Torn), Entry(e)), false)
    case Written => (SetJournal(SetJournal(r, Torn), Entry(e)), true)
  }

  /** Everything but the files of `n`, the journal and the quarantine is as before. */
  ghost predicate OthersUntouched(d: Directory, d': Directory, n: string) {
    forall p: Path :: p.name != n ==> d'.At(p) == d.At(p)
  }
}
