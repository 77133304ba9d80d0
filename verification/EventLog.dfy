/** The append-only event log: deduplication, the written log and its replay after a restart. */
module EventLog {
  import opened Wrappers
  import opened Text
  import opened Sequences
  import opened Observation

  /** How envelopes are written and read back, and the digest of a payload that came without one. */
  datatype Codec = Codec(encode: Envelope -> string, parse: string -> Option<Envelope>, digestOf: string -> string)

  /** Reading back what was written: one line each, never blank, and the same envelope. */
  ghost predicate Faithful(c: Codec) {
    forall e: Envelope :: c.parse(c.encode(e)) == Some(e) && '\n' !in c.encode(e) && !Blank(c.encode(e))
  }

  /** The digest an envelope is deduplicated by. */
  function Key(c: Codec, e: Envelope): string {
    if e.digest != "" then e.digest else c.digestOf(e.payload)
  }

  /** Memory, and the text of the log file; `saved` are the events written to the file. */
  datatype Log = Log(
    events: seq<Envelope>, seenIds: set<string>, seenDigests: set<string>, wal: string, saved: seq<Envelope>)

  const EMPTY_LOG := Log([], {}, {}, "", [])

  datatype Verdict = Appended(count: nat) | WriteFailed | DuplicateId | DuplicateDigest | Unidentified

  /**
   Memory is updated before the file is written; when that write `fails`, the exception leaves memory as it is
   then.
   */
  function Append(c: Codec, log: Log, e: Envelope, fails: bool): (Log, Verdict) {
    if e.id == "" then (log, Unidentified)
    else if e.id in log.seenIds then (log, DuplicateId)
    else if Key(c, e) in log.seenDigests then (log, DuplicateDigest)
    else
      var noted := log.(events := log.events + [e], seenIds := log.seenIds + {e.id},
                        seenDigests := log.seenDigests + {Key(c, e)});
      if fails then (noted, WriteFailed)
      else (noted.(wal := log.wal + c.encode(e) + "\n", saved := log.saved + [e]), Appended(|log.events| + 1))
  }

  predicate Accepted(v: Verdict) {
    v.Appended? || v.WriteFailed?
  }

  lemma RefusalKeepsLog(c: Codec, log: Log, e: Envelope, fails: bool)
    ensures !Accepted(Append(c, log, e, fails).1) ==> Append(c, log, e, fails).0 == log
  {
  }

  // ---- Restart --------------------------------------------------------------

  /** The text between line feeds. */
  function Split(s: string): seq<string> {
    if s == "" then [""]
    else if s[0] == '\n' then [""] + Split(s[1..])
    else
      var rest := Split(s[1..]);
      [[s[0]] + rest[0]] + rest[1..]
  }

  /** What one line of the log does to the state being rebuilt. */
  function LoadLine(c: Codec, log: Log, line: string): Log {
    if Blank(line) then log
    else
      match c.parse(line)
      case None => log
      case Some(e) =>
        log.(events := log.events + [e], saved := log.saved + [e], seenIds := log.seenIds + {e.id},
             seenDigests := if e.digest != "" then log.seenDigests + {e.digest} else log.seenDigests)
  }

  function LoadLines(c: Codec, log: Log, lines: seq<string>): Log
    decreases lines
  {
    if lines == [] then log else LoadLines(c, LoadLine(c, log, lines[0]), lines[1..])
  }

  /** A start on an existing log file. */
  function Load(c: Codec, wal: string): Log {
    LoadLines(c, EMPTY_LOG.(wal := wal), Split(wal))
  }

  function Written(c: Codec, es: seq<Envelope>): string {
    if es == [] then "" else Written(c, es[..|es| - 1]) + c.encode(es[|es| - 1]) + "\n"
  }

  function Ids(es: seq<Envelope>): set<string> {
    set e | e in es :: e.id
  }

  function Keys(c: Codec, es: seq<Envelope>): set<string> {
    set e | e in es :: Key(c, e)
  }

  /** The digests the envelopes carry themselves. */
  function Carried(es: seq<Envelope>): set<string> {
    set e | e in es && e.digest != "" :: e.digest
  }

  /** No two events share an identifier, or the digest they are deduplicated by. */
  ghost predicate Unique(c: Codec, es: seq<Envelope>) {
    forall i, j | 0 <= i < j < |es| :: es[i].id != es[j].id && Key(c, es[i]) != Key(c, es[j])
  }

  /** The file holds the saved events, which memory has too; no identifier occurs twice. */
  ghost predicate Stored(c: Codec, log: Log) {
    && log.wal == Written(c, log.saved)
    && log.seenIds == Ids(log.events)
    && UniqueIds(log.events) && UniqueIds(log.saved)
    && (forall e | e in log.saved :: e in log.events)
    && (forall e | e in log.events :: e.id != "")
  }

  ghost predicate UniqueIds(es: seq<Envelope>) {
    forall i, j | 0 <= i < j < |es| :: es[i].id != es[j].id
  }

  /** Besides, memory knows the digest of each event, and no two share one. */
  ghost predicate Consistent(c: Codec, log: Log) {
    Stored(c, log) && log.seenDigests == Keys(c, log.events) && Unique(c, log.events) && Unique(c, log.saved)
  }

  lemma UniqueAppend(c: Codec, es: seq<Envelope>, e: Envelope)
    requires Unique(c, es) && e.id !in Ids(es) && Key(c, e) !in Keys(c, es)
    ensures Unique(c, es + [e])
  {
    forall i | 0 <= i < |es| ensures es[i].id != e.id && Key(c, es[i]) != Key(c, e) {
      assert es[i].id in Ids(es) && Key(c, es[i]) in Keys(c, es);
    }
  }

  lemma SeenAppend(c: Codec, es: seq<Envelope>, e: Envelope)
    ensures Ids(es + [e]) == Ids(es) + {e.id} && Keys(c, es + [e]) == Keys(c, es) + {Key(c, e)}
    ensures Written(c, es + [e]) == Written(c, es) + c.encode(e) + "\n"
  {
    assert (es + [e])[..|es|] == es;
  }

  lemma UniqueIdsAppend(es: seq<Envelope>, e: Envelope)
    requires UniqueIds(es) && e.id !in Ids(es)
    ensures UniqueIds(es + [e])
  {
    forall i | 0 <= i < |es| ensures es[i].id != e.id {
      assert es[i].id in Ids(es);
    }
  }

  lemma WithinIds(c: Codec, es: seq<Envelope>, all: seq<Envelope>)
    requires forall e | e in es :: e in all
    ensures Ids(es) <= Ids(all) && Keys(c, es) <= Keys(c, all)
  {
  }

  lemma AppendKeepsStored(c: Codec, log: Log, e: Envelope, fails: bool)
    requires Stored(c, log)
    ensures Stored(c, Append(c, log, e, fails).0)
  {
    hide UniqueIds, Ids, Keys, Written, Key;
    if Accepted(Append(c, log, e, fails).1) {
      WithinIds(c, log.saved, log.events);
      SeenAppend(c, log.events, e);
      SeenAppend(c, log.saved, e);
      UniqueIdsAppend(log.events, e);
      UniqueIdsAppend(log.saved, e);
    }
  }

  /** What an append reports is so: the event is the last one in memory, and is in the file unless the write failed. */
  lemma AppendReports(c: Codec, log: Log, e: Envelope, fails: bool)
    ensures var (next, verdict) := Append(c, log, e, fails);
            match verdict
            case Appended(count) =>
              count == |next.events| && next.events == log.events + [e] && next.saved == log.saved + [e] && !fails
            case WriteFailed => next.events == log.events + [e] && next.saved == log.saved && fails
            case DuplicateId => next == log && e.id != "" && e.id in log.seenIds
            case DuplicateDigest => next == log && e.id != "" && e.id !in log.seenIds && Key(c, e) in log.seenDigests
            case Unidentified => next == log && e.id == ""
  {
  }

  lemma AppendKeepsConsistent(c: Codec, log: Log, e: Envelope, fails: bool)
    requires Consistent(c, log)
    ensures Consistent(c, Append(c, log, e, fails).0)
  {
    hide Unique, Ids, Keys, Written, Key, Stored;
    AppendKeepsStored(c, log, e, fails);
    if Accepted(Append(c, log, e, fails).1) {
      SavedAreEvents(c, log);
      SeenAppend(c, log.events, e);
      UniqueAppend(c, log.events, e);
      UniqueAppend(c, log.saved, e);
    }
  }

  lemma SavedAreEvents(c: Codec, log: Log)
    requires Stored(c, log)
    ensures Ids(log.saved) <= Ids(log.events) == log.seenIds && Keys(c, log.saved) <= Keys(c, log.events)
  {
    WithinIds(c, log.saved, log.events);
  }

  lemma {:induction false} SplitLine(line: string, rest: string)
    requires '\n' !in line
    ensures Split(line + "\n" + rest) == [line] + Split(rest)
  {
    var s := line + "\n" + rest;
    if line == "" {
      assert s[1..] == rest;
    } else {
      assert s[1..] == line[1..] + "\n" + rest;
      SplitLine(line[1..], rest);
      assert [line[0]] + line[1..] == line;
      assert ([line[1..]] + Split(rest))[1..] == Split(rest);
    }
  }

  lemma {:induction false} SplitNoBreak(s: string)
    requires '\n' !in s
    ensures Split(s) == [s]
  {
    if s != "" {
      SplitNoBreak(s[1..]);
      assert [s[0]] + s[1..] == s;
    }
  }

  function Encoded(c: Codec, es: seq<Envelope>): seq<string> {
    if es == [] then [] else Encoded(c, es[..|es| - 1]) + [c.encode(es[|es| - 1])]
  }

  /** Splitting what was written gives back the lines, and whatever follows the last one. */
  lemma {:induction false} SplitWritten(c: Codec, es: seq<Envelope>, tail: string)
    requires Faithful(c)
    ensures Split(Written(c, es) + tail) == Encoded(c, es) + Split(tail)
  {
    if es == [] {
      assert Written(c, es) + tail == tail;
    } else {
      var k := |es| - 1;
      var line := c.encode(es[k]);
      assert Written(c, es) + tail == Written(c, es[..k]) + (line + "\n" + tail);
      SplitWritten(c, es[..k], line + "\n" + tail);
      SplitLine(line, tail);
      assert Encoded(c, es[..k]) + ([line] + Split(tail)) == Encoded(c, es) + Split(tail);
    }
  }

  lemma {:induction false} LoadLinesConcat(c: Codec, log: Log, xs: seq<string>, ys: seq<string>)
    ensures LoadLines(c, log, xs + ys) == LoadLines(c, LoadLines(c, log, xs), ys)
    decreases xs
  {
    if xs == [] {
      assert xs + ys == ys;
    } else {
      assert (xs + ys)[1..] == xs[1..] + ys;
      LoadLinesConcat(c, LoadLine(c, log, xs[0]), xs[1..], ys);
    }
  }

  /** What a restart knows of the events it finds. */
  function Reloaded(es: seq<Envelope>, wal: string): Log {
    Log(es, Ids(es), Carried(es), wal, es)
  }

  lemma LoadSingle(c: Codec, log: Log, line: string)
    ensures LoadLines(c, log, [line]) == LoadLine(c, log, line)
  {
    assert LoadLines(c, LoadLine(c, log, line), []) == LoadLine(c, log, line);
  }

  lemma LoadNext(c: Codec, es: seq<Envelope>, e: Envelope, wal: string)
    requires Faithful(c)
    ensures LoadLine(c, Reloaded(es, wal), c.encode(e)) == Reloaded(es + [e], wal)
  {
    assert Ids(es + [e]) == Ids(es) + {e.id};
    assert Carried(es + [e]) == Carried(es) + if e.digest != "" then {e.digest} else {};
  }

  lemma {:induction false} LoadEncoded(c: Codec, es: seq<Envelope>, wal: string)
    requires Faithful(c)
    ensures LoadLines(c, EMPTY_LOG.(wal := wal), Encoded(c, es)) == Reloaded(es, wal)
  {
    if es == [] {
      assert Reloaded(es, wal) == EMPTY_LOG.(wal := wal);
    } else {
      hide Reloaded, LoadLine, LoadLines;
      var k := |es| - 1;
      LoadEncoded(c, es[..k], wal);
      LoadLinesConcat(c, EMPTY_LOG.(wal := wal), Encoded(c, es[..k]), [c.encode(es[k])]);
      LoadSingle(c, Reloaded(es[..k], wal), c.encode(es[k]));
      LoadNext(c, es[..k], es[k], wal);
      assert es == es[..k] + [es[k]];
    }
  }

  /** Starting on a written log: the written events are back before whatever follows them is looked at. */
  lemma LoadWritten(c: Codec, es: seq<Envelope>, tail: string)
    requires Faithful(c)
    ensures var wal := Written(c, es) + tail;
            Load(c, wal) == LoadLines(c, Reloaded(es, wal), Split(tail))
  {
    hide Reloaded, LoadLine, LoadLines, Split, Written;
    var wal := Written(c, es) + tail;
    SplitWritten(c, es, tail);
    LoadLinesConcat(c, EMPTY_LOG.(wal := wal), Encoded(c, es), Split(tail));
    LoadEncoded(c, es, wal);
  }

  /** The written log, split and parsed, rebuilds the events and identifiers, and the digests the envelopes carry. */
  lemma RestartRebuilds(c: Codec, log: Log)
    requires Faithful(c) && Stored(c, log)
    ensures Load(c, log.wal) == Reloaded(log.saved, log.wal)
  {
    hide Load, Reloaded, LoadLines;
    LoadWritten(c, log.saved, "");
    assert log.wal + "" == log.wal;
    LoadSingle(c, Reloaded(log.saved, log.wal), "");
  }

  ghost function MaxLength(ids: set<string>): (n: nat)
    ensures forall id | id in ids :: |id| <= n
  {
    if ids == {} then 0
    else
      var id :| id in ids;
      var n := MaxLength(ids - {id});
      if |id| > n then |id| else n
  }

  ghost function FreshId(ids: set<string>): (id: string)
    ensures id !in ids && id != ""
  {
    seq(MaxLength(ids) + 1, _ => 'x')
  }

  lemma {:induction false} UniqueLength(es: seq<Envelope>)
    requires UniqueIds(es)
    ensures |Ids(es)| == |es|
  {
    if es == [] {
      assert Ids(es) == {};
    } else {
      var rest, e := es[..|es| - 1], es[|es| - 1];
      UniqueLength(rest);
      assert es == rest + [e];
      assert Ids(es) == Ids(rest) + {e.id};
      assert e.id !in Ids(rest);
    }
  }

  lemma RestartSeesLess(c: Codec, log: Log) returns (e: Envelope)
    requires Faithful(c) && Consistent(c, log) && !(Keys(c, log.events) <= Carried(log.saved))
    ensures Append(c, Load(c, log.wal), e, false).1.Appended? && Append(c, log, e, false).1 == DuplicateDigest
  {
    RestartRebuilds(c, log);
    SavedAreEvents(c, log);
    var k :| k in Keys(c, log.events) && k !in Carried(log.saved);
    var x :| x in log.events && Key(c, x) == k;
    e := x.(id := FreshId(Ids(log.events)));
    assert Key(c, e) == k;
  }

  lemma UnsavedIsForgotten(c: Codec, log: Log, x: Envelope)
    requires Faithful(c) && Consistent(c, log) && x in log.events && x !in log.saved
    ensures Append(c, log, x, false).1 == DuplicateId && Append(c, Load(c, log.wal), x, false).1 != DuplicateId
  {
    hide Load, Written, Blank;
    RestartRebuilds(c, log);
    assert x.id in Ids(log.events);
    if y :| y in log.saved && y.id == x.id {
      SameId(log.events, x, y);
    }
  }

  /**
   A restart is invisible to every later append if and only if every event of memory is in the file and each
   remembered digest is one some envelope carries: an event whose write failed is forgotten, and so is a digest
   that was computed for an envelope without one, whose payload is then accepted again.
   */
  lemma RestartInvisibleIff(c: Codec, log: Log)
    requires Faithful(c) && Consistent(c, log)
    ensures (forall e: Envelope :: Append(c, Load(c, log.wal), e, false).1 == Append(c, log, e, false).1) <==>
              (forall e | e in log.events :: e in log.saved) && Keys(c, log.events) <= Carried(log.events)
  {
    hide Load, Written, Blank, Consistent;
    if x :| x in log.events && x !in log.saved {
      UnsavedIsForgotten(c, log, x);
    } else {
      RestartKeepsSaved(c, log);
      if !(Keys(c, log.events) <= Carried(log.events)) {
        var e := RestartSeesLess(c, log);
      }
    }
  }

  lemma CarriedAreKeys(c: Codec, es: seq<Envelope>)
    ensures Carried(es) <= Keys(c, es)
  {
    forall k | k in Carried(es)
      ensures k in Keys(c, es)
    {
      var x :| x in es && x.digest != "" && x.digest == k;
      assert Key(c, x) == k;
    }
  }

  lemma RestartKeepsSaved(c: Codec, log: Log)
    requires Faithful(c) && Consistent(c, log) && forall e | e in log.events :: e in log.saved
    ensures var again := Load(c, log.wal);
            && again.seenIds == log.seenIds && |again.events| == |log.events|
            && again.seenDigests == Carried(log.events) && log.seenDigests == Keys(c, log.events)
    ensures Carried(log.events) <= Keys(c, log.events)
    ensures Carried(log.events) == Carried(log.saved)
  {
    hide Load, Written, Blank;
    RestartRebuilds(c, log);
    SavedAreEvents(c, log);
    CarriedAreKeys(c, log.events);
    assert Ids(log.events) == Ids(log.saved) && Carried(log.events) == Carried(log.saved);
    UniqueLength(log.events);
    UniqueLength(log.saved);
  }

  lemma SameId(es: seq<Envelope>, x: Envelope, y: Envelope)
    requires UniqueIds(es) && x in es && y in es && x.id == y.id
    ensures x == y
  {
  }

  /** One thing that happens to the store: an envelope is offered, or it stops and starts again. */
  datatype Op = Offer(envelope: Envelope, fails: bool) | Restart

  function Step(c: Codec, log: Log, op: Op): Log {
    match op
    case Offer(e, fails) => Append(c, log, e, fails).0
    case Restart => Load(c, log.wal)
  }

  function After(c: Codec, ops: seq<Op>): Log {
    if ops == [] then EMPTY_LOG else Step(c, After(c, ops[..|ops| - 1]), ops[|ops| - 1])
  }

  function WithoutRestarts(ops: seq<Op>): seq<Op> {
    if ops == [] then []
    else WithoutRestarts(ops[..|ops| - 1]) + if ops[|ops| - 1].Restart? then [] else [ops[|ops| - 1]]
  }

  predicate AllCarryDigests(ops: seq<Op>) {
    forall i | 0 <= i < |ops| && ops[i].Offer? :: ops[i].envelope.digest != ""
  }

  predicate NothingFails(ops: seq<Op>) {
    forall i | 0 <= i < |ops| && ops[i].Offer? :: !ops[i].fails
  }

  /**
   When every envelope carries its digest and no write fails, restarts anywhere leave no trace: the store is in
   the state, on disk and in memory, that it would be in had it never stopped; identifiers and digests stay unique
   throughout.
   */
  lemma {:induction false} RestartsLeaveNoTrace(c: Codec, ops: seq<Op>)
    requires Faithful(c) && AllCarryDigests(ops) && NothingFails(ops)
    ensures After(c, ops) == After(c, WithoutRestarts(ops))
    ensures Consistent(c, After(c, ops)) && After(c, ops).saved == After(c, ops).events
    ensures forall e | e in After(c, ops).events :: e.digest != ""
  {
    if ops != [] {
      hide Load, Written, Blank;
      var earlier, op := ops[..|ops| - 1], ops[|ops| - 1];
      RestartsLeaveNoTrace(c, earlier);
      var log := After(c, earlier);
      match op {
        case Offer(e, fails) =>
          AppendKeepsConsistent(c, log, e, fails);
          var kept := WithoutRestarts(earlier) + [op];
          assert kept[..|kept| - 1] == WithoutRestarts(earlier);
        case Restart =>
          RestartRebuilds(c, log);
          assert Keys(c, log.events) == Carried(log.events);
          assert WithoutRestarts(earlier) + [] == WithoutRestarts(earlier);
      }
    }
  }

  /** The events whose write failed since the last restart. */
  function FailedSinceRestart(c: Codec, ops: seq<Op>): seq<Envelope> {
    if ops == [] || ops[|ops| - 1].Restart? then []
    else
      var earlier, op := ops[..|ops| - 1], ops[|ops| - 1];
      FailedSinceRestart(c, earlier)
      + if Append(c, After(c, earlier), op.envelope, op.fails).1.WriteFailed? then [op.envelope] else []
  }

  /**
   What the failed events have in common: memory knows them, the file does not, nor anything that carries their
   digest. A digest that memory knows is that of some event.
   */
  ghost predicate Lost(c: Codec, log: Log, failed: seq<Envelope>) {
    && (forall x :: x in log.events && x !in log.saved <==> x in failed)
    && (forall x | x in failed :: Key(c, x) in log.seenDigests && Key(c, x) !in Carried(log.saved))
    && Carried(log.saved) <= log.seenDigests <= Keys(c, log.events)
  }

  lemma OfferKeepsLost(c: Codec, log: Log, failed: seq<Envelope>, e: Envelope, fails: bool)
    requires Stored(c, log) && Lost(c, log, failed)
    ensures Lost(c, Append(c, log, e, fails).0,
                 failed + if Append(c, log, e, fails).1.WriteFailed? then [e] else [])
  {
    if Accepted(Append(c, log, e, fails).1) {
      assert e in log.events ==> e.id in Ids(log.events);
      assert Carried(log.saved + [e]) == Carried(log.saved) + if e.digest != "" then {e.digest} else {};
    } else {
      assert failed + [] == failed;
    }
  }

  lemma {:induction false} LostIsFailedSinceRestart(c: Codec, ops: seq<Op>)
    requires Faithful(c)
    ensures Stored(c, After(c, ops)) && Lost(c, After(c, ops), FailedSinceRestart(c, ops))
  {
    if ops != [] {
      hide Stored, Lost, Append, Load;
      var earlier, op := ops[..|ops| - 1], ops[|ops| - 1];
      LostIsFailedSinceRestart(c, earlier);
      match op {
        case Offer(e, fails) =>
          AppendKeepsStored(c, After(c, earlier), e, fails);
          OfferKeepsLost(c, After(c, earlier), FailedSinceRestart(c, earlier), e, fails);
        case Restart =>
          RestartStores(c, After(c, earlier));
      }
    } else {
      NothingIsLost(c);
    }
  }

  lemma NothingIsLost(c: Codec)
    ensures Stored(c, EMPTY_LOG) && Lost(c, EMPTY_LOG, [])
  {
  }

  lemma RestartStores(c: Codec, log: Log)
    requires Faithful(c) && Stored(c, log)
    ensures Stored(c, Load(c, log.wal)) && Lost(c, Load(c, log.wal), [])
  {
    RestartRebuilds(c, log);
  }

  /**
   When a retried event is lost. After any offers, failing or not, and restarts, an envelope is answered as a
   duplicate although the file has no event of its identifier iff one of that identifier failed to be written
   since the last restart. One with a new identifier is answered as a duplicate although the file has no event of
   its digest iff it has not and an event of that digest failed so. The next restart forgets both.
   */
  lemma {:induction false} RetryIsLostIff(c: Codec, ops: seq<Op>, e: Envelope, fails: bool)
    requires Faithful(c) && e.id != ""
    ensures var log, failed := After(c, ops), FailedSinceRestart(c, ops);
            var verdict, unknown := Append(c, log, e, fails).1, Key(c, e) !in Keys(c, log.saved);
            && (verdict == DuplicateId && e.id !in Ids(log.saved) <==> e.id in Ids(failed))
            && (verdict == DuplicateDigest && unknown <==>
                  e.id !in Ids(log.events) && unknown && Key(c, e) in Keys(c, failed))
            && (e.id !in Ids(log.saved) && unknown ==> Append(c, After(c, ops + [Restart]), e, false).1.Appended?)
            && (e in failed ==> Append(c, After(c, ops + [Restart]), e, false).1.Appended?)
  {
    LostIsFailedSinceRestart(c, ops);
    var log, failed := After(c, ops), FailedSinceRestart(c, ops);
    RestartRebuilds(c, log);
    assert (ops + [Restart])[..|ops|] == ops;
    CarriedAreKeys(c, log.saved);
    FailedIdsAreNew(c, log, failed, e.id);
    FailedKeysAreKnown(c, log, failed, Key(c, e));
    assert e in failed ==> e.id in Ids(failed) && Key(c, e) !in Carried(log.saved);
  }

  lemma FailedIdsAreNew(c: Codec, log: Log, failed: seq<Envelope>, id: string)
    requires Stored(c, log) && Lost(c, log, failed)
    ensures id in Ids(failed) <==> id in Ids(log.events) && id !in Ids(log.saved)
  {
    if id in Ids(failed) {
      var x :| x in failed && x.id == id;
      assert x in log.events;
      if y :| y in log.saved && y.id == id {
        SameId(log.events, x, y);
      }
    }
  }

  lemma FailedKeysAreKnown(c: Codec, log: Log, failed: seq<Envelope>, k: string)
    requires Lost(c, log, failed)
    ensures k in log.seenDigests && k !in Keys(c, log.saved) ==> k in Keys(c, failed)
    ensures k in Keys(c, failed) ==> k in log.seenDigests
  {
    if k in log.seenDigests && k !in Keys(c, log.saved) {
      var x :| x in log.events && Key(c, x) == k;
      assert x !in log.saved;
    }
  }

  /**
   A crash in the middle of a line leaves a tail without a line feed. The next start skips it, but the next event
   is written onto the same line: from then on that event is read back if and only if the tail and the event
   together happen to parse as it.
   */
  lemma TornTailDecidesNext(c: Codec, es: seq<Envelope>, tail: string, e: Envelope)
    requires Faithful(c) && '\n' !in tail && !Blank(tail) && c.parse(tail).None?
    ensures var torn := Written(c, es) + tail;
            && Load(c, torn).events == es
            && Load(c, torn + c.encode(e) + "\n").events ==
               match c.parse(tail + c.encode(e)) { case None => es case Some(x) => es + [x] }
  {
    hide Load, LoadLines, Split, Written;
    LoadWritten(c, es, tail);
    SplitNoBreak(tail);
    LoadSingle(c, Reloaded(es, Written(c, es) + tail), tail);
    var line := tail + c.encode(e);
    assert Written(c, es) + tail + c.encode(e) + "\n" == Written(c, es) + (line + "\n");
    LoadWritten(c, es, line + "\n");
    assert line + "\n" + "" == line + "\n";
    SplitLine(line, "");
    SplitNoBreak("");
    assert !Blank(line) by {
      var i :| 0 <= i < |tail| && !IsSpace(tail[i]);
      assert line[i] == tail[i];
    }
    LoadTwo(c, Reloaded(es, Written(c, es) + (line + "\n")), line, "");
  }

  lemma LoadTwo(c: Codec, log: Log, first: string, second: string)
    ensures LoadLines(c, log, [first] + [second]) == LoadLine(c, LoadLine(c, log, first), second)
  {
    LoadLinesConcat(c, log, [first], [second]);
    LoadSingle(c, log, first);
    LoadSingle(c, LoadLine(c, log, first), second);
  }

  // ---- Reading --------------------------------------------------------------

  function IndexOf(es: seq<Envelope>, id: string): Option<nat> {
    IndexWhere(es, (e: Envelope) => e.id == id)
  }

  function Filter(es: seq<Envelope>, keep: Envelope -> bool): seq<Envelope> {
    if es == [] then []
    else Filter(es[..|es| - 1], keep) + if keep(es[|es| - 1]) then [es[|es| - 1]] else []
  }

  const LATEST: nat := 50

  function LaterThan(moment: Timestamp): Envelope -> bool {
    (e: Envelope) => e.occurredAt.At? && moment.At? && e.occurredAt.ms > moment.ms
  }

  function UpTo(ms: int): Envelope -> bool {
    (e: Envelope) => e.occurredAt.At? && e.occurredAt.ms <= ms
  }

  /** An empty identifier is none; a date that is no date is after nothing. */
  function EventsSince(es: seq<Envelope>, lastId: string, lastSeen: Timestamp): seq<Envelope> {
    var found := if lastId == "" then None else IndexOf(es, lastId);
    if found.Some? then es[found.value + 1..]
    else if !lastSeen.Missing? then
      Filter(es, LaterThan(lastSeen))
    else if |es| > LATEST then es[|es| - LATEST..] else es
  }

  /** What a reader gets that polls at the given lengths of the log, each time from the last event it was given. */
  function Polled(es: seq<Envelope>, lengths: seq<nat>, lastId: string): seq<Envelope>
    requires forall i | 0 <= i < |lengths| :: lengths[i] <= |es|
    decreases lengths
  {
    if lengths == [] then []
    else
      var answer := EventsSince(es[..lengths[0]], lastId, Missing);
      answer + Polled(es, lengths[1..], if answer == [] then lastId else answer[|answer| - 1].id)
  }

  /** One poll, from a known event. */
  lemma PollFrom(c: Codec, es: seq<Envelope>, n: nat, cursor: nat)
    requires Unique(c, es) && cursor < n <= |es| && es[cursor].id != ""
    ensures EventsSince(es[..n], es[cursor].id, Missing) == es[cursor + 1..n]
  {
    var seen := es[..n];
    assert seen[cursor].id == es[cursor].id;
    var found := IndexOf(seen, es[cursor].id);
    assert found == Some(cursor) by {
      assert seen[found.value] == es[found.value];
    }
    assert seen[cursor + 1..] == es[cursor + 1..n];
  }

  /**
   Polling from the last event seen delivers every later event exactly once and in order, however the log grows
   between polls.
   */
  lemma {:induction false} PollingDeliversOnce(c: Codec, es: seq<Envelope>, lengths: seq<nat>, cursor: nat)
    requires Unique(c, es) && "" !in Ids(es)
    requires cursor < |es| && lengths != []
    requires forall i | 0 <= i < |lengths| :: cursor < lengths[i] <= |es|
    requires forall i, j | 0 <= i < j < |lengths| :: lengths[i] <= lengths[j]
    ensures Polled(es, lengths, es[cursor].id) == es[cursor + 1..lengths[|lengths| - 1]]
    decreases lengths
  {
    hide EventsSince, Unique, Polled;
    var n := lengths[0];
    assert es[cursor].id in Ids(es);
    PollFrom(c, es, n, cursor);
    PolledStep(es, lengths, cursor);
    var rest := lengths[1..];
    if rest == [] {
      NothingPolled(es, es[n - 1].id);
    } else {
      assert forall i | 0 <= i < |rest| :: rest[i] == lengths[i + 1];
      PollingDeliversOnce(c, es, rest, n - 1);
      Adjacent(es, cursor + 1, n, lengths[|lengths| - 1]);
    }
  }

  lemma NothingPolled(es: seq<Envelope>, lastId: string)
    ensures Polled(es, [], lastId) == []
  {
  }

  lemma Adjacent<T>(xs: seq<T>, i: nat, j: nat, k: nat)
    requires i <= j <= k <= |xs|
    ensures xs[i..j] + xs[j..k] == xs[i..k]
  {
  }

  lemma PolledOnce(es: seq<Envelope>, lengths: seq<nat>, lastId: string, answer: seq<Envelope>)
    requires lengths != [] && forall i | 0 <= i < |lengths| :: lengths[i] <= |es|
    requires EventsSince(es[..lengths[0]], lastId, Missing) == answer
    ensures Polled(es, lengths, lastId) ==
            answer + Polled(es, lengths[1..], if answer == [] then lastId else answer[|answer| - 1].id)
  {
    hide EventsSince;
  }

  lemma PolledStep(es: seq<Envelope>, lengths: seq<nat>, cursor: nat)
    requires cursor < |es| && lengths != []
    requires forall i | 0 <= i < |lengths| :: cursor < lengths[i] <= |es|
    requires EventsSince(es[..lengths[0]], es[cursor].id, Missing) == es[cursor + 1..lengths[0]]
    ensures Polled(es, lengths, es[cursor].id) ==
            es[cursor + 1..lengths[0]] + Polled(es, lengths[1..], es[lengths[0] - 1].id)
  {
    hide EventsSince, Polled;
    var answer := es[cursor + 1..lengths[0]];
    PolledOnce(es, lengths, es[cursor].id, answer);
    if answer != [] {
      assert answer[|answer| - 1] == es[lengths[0] - 1];
    }
  }

  /** Events up to a moment, for the time machine; a moment that is no date throws. */
  function ReplayUntil(es: seq<Envelope>, target: Timestamp): Option<seq<Envelope>> {
    if !target.At? then None
    else Some(Filter(es, UpTo(target.ms)))
  }

  lemma {:induction false} FilterNested(es: seq<Envelope>, wide: Envelope -> bool, narrow: Envelope -> bool)
    requires forall e | e in es :: narrow(e) ==> wide(e)
    ensures Filter(Filter(es, wide), narrow) == Filter(es, narrow)
  {
    if es != [] {
      var k := |es| - 1;
      FilterNested(es[..k], wide, narrow);
      if wide(es[k]) {
        assert (Filter(es[..k], wide) + [es[k]])[..|Filter(es[..k], wide)|] == Filter(es[..k], wide);
      } else {
        assert Filter(es[..k], wide) + [] == Filter(es[..k], wide);
        assert es[k] in es;
      }
    }
  }

  lemma {:induction false} FilterMembers(es: seq<Envelope>, keep: Envelope -> bool, e: Envelope)
    ensures e in Filter(es, keep) <==> e in es && keep(e)
  {
    if es != [] {
      FilterMembers(es[..|es| - 1], keep, e);
      assert es == es[..|es| - 1] + [es[|es| - 1]];
    }
  }

  /** A replay holds exactly the dated events up to its moment, that moment included. */
  lemma ReplayIsExact(es: seq<Envelope>, target: Timestamp, e: Envelope)
    requires target.At?
    ensures e in ReplayUntil(es, target).value <==> e in es && e.occurredAt.At? && e.occurredAt.ms <= target.ms
  {
    FilterMembers(es, UpTo(target.ms), e);
  }

  /**
   A reader whose last event is not in the log gets the events after the moment it names, or without a moment the
   latest 50.
   */
  lemma SinceUnknownEvent(es: seq<Envelope>, lastId: string, lastSeen: Timestamp, e: Envelope)
    requires lastId == "" || forall i | 0 <= i < |es| :: es[i].id != lastId
    ensures var answer := EventsSince(es, lastId, lastSeen);
            match lastSeen
            case Missing => |answer| == (if |es| < 50 then |es| else 50) && answer == es[|es| - |answer|..]
            case At(ms) => e in answer <==> e in es && e.occurredAt.At? && e.occurredAt.ms > ms
            case _ => answer == []
  {
    FilterMembers(es, LaterThan(lastSeen), e);
    if lastSeen.Unparsed? {
      FilterNone(es, LaterThan(lastSeen));
    }
  }

  lemma {:induction false} FilterNone(es: seq<Envelope>, keep: Envelope -> bool)
    requires forall e | e in es :: !keep(e)
    ensures Filter(es, keep) == []
  {
    if es != [] {
      assert es[|es| - 1] in es && forall e | e in es[..|es| - 1] :: e in es;
      FilterNone(es[..|es| - 1], keep);
    }
  }

  /** Replaying to an earlier moment is replaying the replay of a later one: history only grows. */
  lemma ReplayIsNested(es: seq<Envelope>, early: int, late: int)
    requires early <= late
    ensures ReplayUntil(ReplayUntil(es, At(late)).value, At(early)) == ReplayUntil(es, At(early))
  {
    FilterNested(es, UpTo(late), UpTo(early));
  }

  // ---- The store ------------------------------------------------------------

  class EventStore {
    const codec: Codec
    var events: seq<Envelope>
    var seenIds: set<string>
    var seenDigests: set<string>
    var wal: string
    ghost var saved: seq<Envelope>

    /** Starts on an existing log file. */
    constructor (codec: Codec, wal: string)
      ensures this.codec == codec && State() == Load(codec, wal)
    {
      this.codec := codec;
      this.wal := wal;
      events, seenIds, seenDigests, saved := [], {}, {}, [];
      new;
      InitFromDisk();
    }

    ghost function State(): Log
      reads this
    {
      Log(events, seenIds, seenDigests, wal, saved)
    }

    method InitFromDisk()
      requires events == [] && seenIds == {} && seenDigests == {} && saved == []
      modifies this
      ensures State() == Load(codec, old(wal))
    {
      var lines := Split(wal);
      for i := 0 to |lines|
        invariant Load(codec, old(wal)) == LoadLines(codec, State(), lines[i..])
      {
        assert lines[i..][0] == lines[i] && lines[i..][1..] == lines[i + 1..];
        if !Blank(lines[i]) {
          match codec.parse(lines[i]) {
            case None =>
            case Some(e) =>
              seenIds := seenIds + {e.id};
              if e.digest != "" {
                seenDigests := seenDigests + {e.digest};
              }
              events := events + [e];
              saved := saved + [e];
          }
        }
      }
    }

    /** A failing write throws after memory was updated. */
    method AppendEvent(e: Envelope, fails: bool) returns (v: Verdict)
      modifies this
      ensures (State(), v) == Append(codec, old(State()), e, fails)
    {
      if e.id == "" {
        return Unidentified;
      }
      if e.id in seenIds {
        return DuplicateId;
      }
      var digest := if e.digest != "" then e.digest else codec.digestOf(e.payload);
      if digest in seenDigests {
        return DuplicateDigest;
      }
      seenIds := seenIds + {e.id};
      seenDigests := seenDigests + {digest};
      events := events + [e];
      if fails {
        return WriteFailed;
      }
      saved := saved + [e];
      wal := wal + codec.encode(e) + "\n";
      return Appended(|events|);
    }
  }
}
