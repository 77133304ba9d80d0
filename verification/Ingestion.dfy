/**
 The ingestion pipeline: normalise, validate, deduplicate, append, project. Everything up to the call of the
 intelligence engine runs without interruption; that call is where ingestions interleave.
 */
module Ingestion {
  import opened Wrappers
  import opened Sequences
  import opened Observation
  import EventLog
  import Projection

  const ERROR_LIMIT: nat := 50

  datatype ErrorCode = SchemaInvalid | InternalError

  datatype Stats = Stats(
    received: nat, validated: nat, deduped: nat, persisted: nat, projected: nat, rejected: nat, errors: seq<ErrorCode>)

  /** The pipeline and its stores; `suspended` ingestions wait for the engine. */
  datatype Pipeline = Pipeline(log: EventLog.Log, state: Projection.State, stats: Stats, suspended: nat)

  datatype Env = Env(codec: EventLog.Codec, hasher: Projection.BlockHasher)

  const NO_STATS := Stats(0, 0, 0, 0, 0, 0, [])

  /** The window of errors, after one more. */
  function WithError(errors: seq<ErrorCode>, code: ErrorCode): seq<ErrorCode> {
    var all := errors + [code];
    if |all| > ERROR_LIMIT then all[1..] else all
  }

  function Reject(s: Stats, code: ErrorCode): Stats {
    s.(rejected := s.rejected + 1, errors := WithError(s.errors, code))
  }

  /** What becomes of a raw event before the log sees it. */
  datatype Screening = Invalid | Thrown(validated: bool) | Passed(envelope: Envelope)

  function Screen(raw: Raw, w: World): Screening {
    match Normalize(raw, w)
    case None => Thrown(false)
    case Some(e) =>
      if !Valid(e) then Invalid
      else
        match ResolveIdentities(CorrectSkew(e, w.now))
        case None => Thrown(true)
        case Some(r) => Passed(r)
  }

  /**
   A screened envelope goes to the log and, unless it is a duplicate or the log's write `fails`, to the projector.
   */
  function Store(p: Pipeline, e: Envelope, env: Env, fails: bool): Pipeline {
    var s := p.stats;
    var (log, verdict) := EventLog.Append(env.codec, p.log, e, fails);
    match verdict
    case WriteFailed => p.(log := log, stats := Reject(s, InternalError))
    case Unidentified => p.(stats := Reject(s, InternalError))
    case DuplicateId => p.(stats := s.(deduped := s.deduped + 1))
    case DuplicateDigest => p.(stats := s.(deduped := s.deduped + 1))
    case Appended(_) =>
      var state := Projection.Applied(p.state, e, env.hasher);
      var s' := s.(persisted := s.persisted + 1);
      if Projection.Throws(e) then Pipeline(log, state, Reject(s', InternalError), p.suspended)
      else Pipeline(log, state, s'.(projected := s'.projected + 1), p.suspended + 1)
  }

  /** One ingestion up to the engine call, or to its end if it does not get that far. */
  function Begin(p: Pipeline, raw: Raw, w: World, env: Env, fails: bool): Pipeline {
    Handle(p, Screen(raw, w), env, fails)
  }

  function Handle(p: Pipeline, screening: Screening, env: Env, fails: bool): Pipeline {
    var s := p.stats.(received := p.stats.received + 1);
    match screening
    case Invalid => p.(stats := Reject(s, SchemaInvalid))
    case Thrown(validated) =>
      p.(stats := Reject(if validated then s.(validated := s.validated + 1) else s, InternalError))
    case Passed(e) => Store(p.(stats := s.(validated := s.validated + 1)), e, env, fails)
  }

  /** The engine answers one suspended ingestion, or fails it. */
  function Resume(p: Pipeline, answered: bool): Pipeline
    requires p.suspended > 0
  {
    p.(suspended := p.suspended - 1, stats := if answered then p.stats else Reject(p.stats, InternalError))
  }

  datatype Event = Arrive(raw: Raw, world: World, writeFails: bool) | Settle(answered: bool)

  predicate Enabled(p: Pipeline, e: Event) {
    e.Settle? ==> p.suspended > 0
  }

  function Next(p: Pipeline, e: Event, env: Env): Pipeline
    requires Enabled(p, e)
  {
    match e
    case Arrive(raw, w, fails) => Begin(p, raw, w, env, fails)
    case Settle(answered) => Resume(p, answered)
  }

  /** The states an interleaving passes through; each is an await point. */
  ghost predicate IsRun(trace: seq<Pipeline>, events: seq<Event>, env: Env) {
    && |trace| == |events| + 1
    && forall i | 0 <= i < |events| :: Enabled(trace[i], events[i]) && trace[i + 1] == Next(trace[i], events[i], env)
  }

  /** Whether the event fails an ingestion whose envelope has already been appended. */
  predicate FailsLate(p: Pipeline, e: Event, env: Env) {
    match e
    case Settle(answered) => !answered
    case Arrive(raw, w, fails) =>
      match Screen(raw, w) {
        case Passed(r) => EventLog.Append(env.codec, p.log, r, fails).1.Appended? && Projection.Throws(r)
        case _ => false
      }
  }

  function LateFailures(trace: seq<Pipeline>, events: seq<Event>, env: Env, n: nat): nat
    requires |trace| == |events| + 1 && n <= |events|
  {
    if n == 0 then 0
    else LateFailures(trace, events, env, n - 1) + if FailsLate(trace[n - 1], events[n - 1], env) then 1 else 0
  }

  ghost predicate Starts(p: Pipeline, env: Env) {
    p.stats == NO_STATS && p.suspended == 0 && EventLog.Consistent(env.codec, p.log)
  }

  /** The file has grown from `first` by some events, and the projection is their fold. */
  ghost predicate Sourced(first: Pipeline, p: Pipeline, env: Env) {
    && EventLog.Consistent(env.codec, p.log)
    && first.log.saved <= p.log.saved
    && p.state == Projection.Fold(first.state, p.log.saved[|first.log.saved|..], env.hasher)
    && p.stats.persisted == |p.log.saved| - |first.log.saved|
  }

  lemma StoreIsSourced(first: Pipeline, p: Pipeline, e: Envelope, env: Env, fails: bool)
    requires Sourced(first, p, env)
    ensures Sourced(first, Store(p, e, env, fails), env)
  {
    hide EventLog.Consistent, EventLog.Key, Projection.Applied, Projection.Fold;
    EventLog.AppendKeepsConsistent(env.codec, p.log, e, fails);
    var n := |first.log.saved|;
    if EventLog.Append(env.codec, p.log, e, fails).1.Appended? {
      FoldLonger(first.state, p.log.saved, n, e, env.hasher);
    }
  }

  lemma FoldLonger(s: Projection.State, es: seq<Envelope>, n: nat, e: Envelope, h: Projection.BlockHasher)
    requires n <= |es|
    ensures Projection.Fold(s, (es + [e])[n..], h) == Projection.Applied(Projection.Fold(s, es[n..], h), e, h)
  {
    var grown := (es + [e])[n..];
    assert grown[..|grown| - 1] == es[n..];
  }

  lemma HandleIsSourced(first: Pipeline, p: Pipeline, screening: Screening, env: Env, fails: bool)
    requires Sourced(first, p, env)
    ensures Sourced(first, Handle(p, screening, env, fails), env)
  {
    hide Sourced, Store;
    var s := p.stats.(received := p.stats.received + 1);
    match screening {
      case Passed(e) =>
        var passed := p.(stats := s.(validated := s.validated + 1));
        SourcedLooksPastCounters(first, p, passed, env);
        StoreIsSourced(first, passed, e, env, fails);
      case _ =>
        SourcedLooksPastCounters(first, p, Handle(p, screening, env, fails), env);
    }
  }

  lemma SourcedLooksPastCounters(first: Pipeline, p: Pipeline, p': Pipeline, env: Env)
    requires Sourced(first, p, env)
    requires p'.log == p.log && p'.state == p.state && p'.stats.persisted == p.stats.persisted
    ensures Sourced(first, p', env)
  {
    hide EventLog.Consistent, Projection.Fold;
  }

  /**
   Event sourcing: at every await point of every interleaving of ingestions, the projection is the fold of the
   events the pipeline has written to the log file, in the order of the file and, as identifiers and digests are
   unique in it, each exactly once. An event whose write failed is in neither.
   */
  lemma {:induction false} ProjectionIsFoldOfLog(trace: seq<Pipeline>, events: seq<Event>, env: Env)
    requires IsRun(trace, events, env) && Starts(trace[0], env)
    ensures forall i | 0 <= i < |trace| :: Sourced(trace[0], trace[i], env)
  {
    assert trace[0].log.saved[|trace[0].log.saved|..] == [];
    for k := 0 to |events|
      invariant forall i | 0 <= i <= k :: Sourced(trace[0], trace[i], env)
    {
      if events[k].Arrive? {
        HandleIsSourced(trace[0], trace[k], Screen(events[k].raw, events[k].world), env, events[k].writeFails);
      }
    }
  }

  /** The counters account for every arrival, up to those that fail after their envelope was appended. */
  ghost predicate Accounted(p: Pipeline, late: nat) {
    && p.stats.received + late == p.stats.rejected + p.stats.deduped + p.stats.persisted
    && |p.stats.errors| == (if p.stats.rejected < ERROR_LIMIT then p.stats.rejected else ERROR_LIMIT)
    && p.stats.projected <= p.stats.persisted <= p.stats.validated <= p.stats.received
  }

  lemma StepIsAccounted(p: Pipeline, e: Event, env: Env, late: nat)
    requires Enabled(p, e) && Accounted(p, late)
    ensures Accounted(Next(p, e, env), late + if FailsLate(p, e, env) then 1 else 0)
  {
    hide Screen, EventLog.Append, Projection.Applied, Projection.Throws;
  }

  /**
   The pipeline's books: received equals rejected plus deduplicated plus persisted at an await point if and only
   if no ingestion so far has failed after its append (a repository observation without provenance, or an engine
   failure), each of which is counted both as persisted and as rejected.
   */
  lemma {:induction false} BooksBalanceIff(trace: seq<Pipeline>, events: seq<Event>, env: Env, n: nat)
    requires IsRun(trace, events, env) && Starts(trace[0], env) && n <= |events|
    ensures var s := trace[n].stats;
            && (s.received == s.rejected + s.deduped + s.persisted <==> LateFailures(trace, events, env, n) == 0)
            && Accounted(trace[n], LateFailures(trace, events, env, n))
  {
    for k := 0 to n
      invariant Accounted(trace[k], LateFailures(trace, events, env, k))
    {
      StepIsAccounted(trace[k], events[k], env, LateFailures(trace, events, env, k));
    }
  }

  /** The ingestions that the engine has answered or failed. */
  function Settled(events: seq<Event>, n: nat): nat
    requires n <= |events|
  {
    if n == 0 then 0 else Settled(events, n - 1) + if events[n - 1].Settle? then 1 else 0
  }

  /** Every projected ingestion waits for the engine or has been settled. */
  lemma {:induction false} ProjectedWaitOrAreSettled(trace: seq<Pipeline>, events: seq<Event>, env: Env, n: nat)
    requires IsRun(trace, events, env) && Starts(trace[0], env) && n <= |events|
    ensures trace[n].stats.projected == trace[n].suspended + Settled(events, n)
  {
    for k := 0 to n
      invariant trace[k].stats.projected == trace[k].suspended + Settled(events, k)
    {
      StepKeepsWaiting(trace[k], events[k], env);
    }
  }

  lemma StepKeepsWaiting(p: Pipeline, e: Event, env: Env)
    requires Enabled(p, e)
    ensures var next := Next(p, e, env);
            next.stats.projected - next.suspended == p.stats.projected - p.suspended + if e.Settle? then 1 else 0
  {
    hide Screen, EventLog.Append, Projection.Applied, Projection.Throws;
  }

  /** The error an event records, if any. */
  function ErrorOf(p: Pipeline, e: Event, env: Env): Option<ErrorCode> {
    match e
    case Settle(answered) => if answered then None else Some(InternalError)
    case Arrive(raw, w, fails) =>
      match Screen(raw, w) {
        case Invalid => Some(SchemaInvalid)
        case Thrown(_) => Some(InternalError)
        case Passed(r) =>
          match EventLog.Append(env.codec, p.log, r, fails).1 {
            case Appended(_) => if Projection.Throws(r) then Some(InternalError) else None
            case DuplicateId => None
            case DuplicateDigest => None
            case _ => Some(InternalError)
          }
      }
  }

  /** All errors ever recorded, in order. */
  function ErrorsEver(trace: seq<Pipeline>, events: seq<Event>, env: Env, n: nat): seq<ErrorCode>
    requires |trace| == |events| + 1 && n <= |events|
  {
    if n == 0 then [] else Extended(ErrorsEver(trace, events, env, n - 1), ErrorOf(trace[n - 1], events[n - 1], env))
  }

  function Extended(ever: seq<ErrorCode>, error: Option<ErrorCode>): seq<ErrorCode> {
    if error.Some? then ever + [error.value] else ever
  }

  predicate Records(stats: Stats, ever: seq<ErrorCode>) {
    stats.errors == Last(ever, ERROR_LIMIT) && stats.rejected == |ever|
  }

  lemma StepRecordsError(p: Pipeline, e: Event, env: Env)
    requires Enabled(p, e)
    ensures var error := ErrorOf(p, e, env);
            Next(p, e, env).stats.errors ==
            if error.Some? then WithError(p.stats.errors, error.value) else p.stats.errors
    ensures Next(p, e, env).stats.rejected == p.stats.rejected + if ErrorOf(p, e, env).Some? then 1 else 0
  {
    hide Screen, EventLog.Append, Projection.Applied, Projection.Throws;
  }

  lemma WindowOfLonger(all: seq<ErrorCode>, code: ErrorCode)
    ensures WithError(Last(all, ERROR_LIMIT), code) == Last(all + [code], ERROR_LIMIT)
  {
  }

  lemma StepExtendsRecord(p: Pipeline, e: Event, env: Env, ever: seq<ErrorCode>)
    requires Enabled(p, e) && Records(p.stats, ever)
    ensures Records(Next(p, e, env).stats, Extended(ever, ErrorOf(p, e, env)))
  {
    hide WithError, Last, ErrorOf, Next;
    StepRecordsError(p, e, env);
    if ErrorOf(p, e, env).Some? {
      WindowOfLonger(ever, ErrorOf(p, e, env).value);
    }
  }

  /**
   Over every run the window holds the latest 50 of all errors ever recorded, and each is counted as a rejection.
   */
  lemma {:induction false} ErrorWindowIsLatest(trace: seq<Pipeline>, events: seq<Event>, env: Env, n: nat)
    requires IsRun(trace, events, env) && Starts(trace[0], env) && n <= |events|
    ensures var ever := ErrorsEver(trace, events, env, n);
            trace[n].stats.errors == Last(ever, 50) && trace[n].stats.rejected == |ever|
  {
    hide ErrorOf, Next, Enabled;
    for k := 0 to n
      invariant Records(trace[k].stats, ErrorsEver(trace, events, env, k))
    {
      StepExtendsRecord(trace[k], events[k], env, ErrorsEver(trace, events, env, k));
    }
  }

  /** Nothing the contract asks for is missing. */
  predicate Complete(e: Envelope) {
    && e.schema == "aftergraph.observation/1" && e.id != "" && e.system != "" && e.adapter != ""
    && e.subjectType != "" && e.subjectId != "" && e.eventType != "" && e.digest != ""
    && !e.occurredAt.Missing? && !e.observedAt.Missing? && !e.freshness.Missing?
  }

  /**
   Exactly what an envelope is screened for, and what is changed about it. One with something missing is invalid;
   one with an unnamed actor throws; any other passes, is marked observed and is otherwise left as it is, save that
   an occurrence more than five minutes ahead is set to the present and marked as corrected.
   */
  lemma EnvelopeIsScreened(e: Envelope, w: World)
    ensures var ahead := e.occurredAt.At? && e.occurredAt.ms - w.now > 5 * 60 * 1000;
            Screen(Canonical(e), w) ==
            if !Complete(e) then Invalid
            else if e.actor.Some? && e.actor.value.id.None? then Thrown(true)
            else if ahead then Passed(e.(observed := true, skewCorrected := true, occurredAt := At(w.now)))
            else Passed(e.(observed := true))
  {
    hide Valid, Problems;
    ValidIff(e);
  }

  /** Any other event is screened as the envelope made of it; nothing at all throws. */
  lemma ForeignIsScreened(f: Foreign, w: World)
    ensures Screen(Null, w) == Thrown(false)
    ensures w.freshId != "" && (forall i, t, s, p :: w.digest(i, t, s, p) != "") ==>
              var screened := Screen(Other(f), w);
              screened.Passed? && screened == Screen(Canonical(Normalize(Other(f), w).value), w)
  {
    if w.freshId != "" && (forall i, t, s, p :: w.digest(i, t, s, p) != "") {
      NormalizedForeignIsValid(f, w);
    }
  }

  /**
   Whatever arrives, what reaches the log has everything the contract asks for, is marked observed, has a named
   actor if any, and is no more than five minutes ahead.
   */
  lemma LoggedEnvelopesAreScreened(raw: Raw, w: World)
    ensures match Screen(raw, w)
            case Passed(e) =>
              && Complete(e) && e.observed && (e.actor.Some? ==> e.actor.value.id.Some?)
              && (e.occurredAt.At? ==> e.occurredAt.ms <= w.now + SKEW_TOLERANCE)
            case _ => true
  {
    hide Valid, Problems;
    if Normalize(raw, w).Some? {
      ValidIff(Normalize(raw, w).value);
    }
  }

  function One(b: bool): nat {
    if b then 1 else 0
  }

  /**
   What one ingestion does, field by field. What passes the screening is offered to the log; what the log writes is
   projected, and waits for the engine unless projecting it throws. Each counter counts what its name says, and an
   ingestion ends as a rejection iff it was invalid or threw anywhere.
   */
  lemma IngestionIsRecorded(p: Pipeline, raw: Raw, w: World, env: Env, fails: bool)
    ensures var next, screened := Begin(p, raw, w, env, fails), Screen(raw, w);
            next.stats.received == p.stats.received + 1
            && (!screened.Passed? ==>
                  && next == p.(stats := next.stats)
                  && next.stats.validated == p.stats.validated + One(screened == Thrown(true))
                  && next.stats.rejected == p.stats.rejected + 1
                  && (next.stats.deduped, next.stats.persisted, next.stats.projected)
                     == (p.stats.deduped, p.stats.persisted, p.stats.projected))
            && (screened.Passed? ==>
                  var e := screened.envelope;
                  var (log, verdict) := EventLog.Append(env.codec, p.log, e, fails);
                  var waits := verdict.Appended? && !Projection.Throws(e);
                  && next.log == log
                  && next.state == (if verdict.Appended? then Projection.Applied(p.state, e, env.hasher) else p.state)
                  && next.suspended == p.suspended + One(waits)
                  && next.stats.validated == p.stats.validated + 1
                  && next.stats.deduped ==
                     p.stats.deduped + One(verdict.DuplicateId? || verdict.DuplicateDigest?)
                  && next.stats.persisted == p.stats.persisted + One(verdict.Appended?)
                  && next.stats.projected == p.stats.projected + One(waits)
                  && next.stats.rejected ==
                     p.stats.rejected + One(!waits && !verdict.DuplicateId? && !verdict.DuplicateDigest?))
  {
    hide Screen, Projection.Applied, Projection.Throws, EventLog.Key;
  }

  /** A duplicate is counted as such and changes nothing else, whichever way it is recognised. */
  lemma DuplicateChangesNothing(p: Pipeline, raw: Raw, w: World, env: Env, fails: bool)
    requires EventLog.Consistent(env.codec, p.log) && Screen(raw, w).Passed? && Screen(raw, w).envelope.id != ""
    requires var e := Screen(raw, w).envelope;
             exists x :: x in p.log.events
                         && (x.id == e.id || EventLog.Key(env.codec, x) == EventLog.Key(env.codec, e))
    ensures var s := p.stats;
            Begin(p, raw, w, env, fails) ==
            p.(stats := s.(received := s.received + 1, validated := s.validated + 1, deduped := s.deduped + 1))
  {
    hide Screen, Projection.Applied, EventLog.Key;
  }

  // ---- The pipeline itself --------------------------------------------------

  class IngestionPipeline {
    const store: EventLog.EventStore
    const projector: Projection.StateProjector
    var received: nat
    var validated: nat
    var deduped: nat
    var persisted: nat
    var projected: nat
    var rejected: nat
    var errors: seq<ErrorCode>
    var suspended: nat

    constructor (store: EventLog.EventStore, projector: Projection.StateProjector)
      ensures this.store == store && this.projector == projector
      ensures Now() == Pipeline(store.State(), projector.Now(), NO_STATS, 0)
    {
      this.store, this.projector := store, projector;
      received, validated, deduped, persisted, projected, rejected := 0, 0, 0, 0, 0, 0;
      errors, suspended := [], 0;
    }

    ghost function Now(): Pipeline
      reads this, store, projector
    {
      Pipeline(store.State(), projector.Now(),
               Stats(received, validated, deduped, persisted, projected, rejected, errors), suspended)
    }

    ghost function World(): Env {
      Env(store.codec, projector.hasher)
    }

    method RecordRejection(code: ErrorCode)
      modifies this`rejected, this`errors
      ensures rejected == old(rejected) + 1
      ensures errors == WithError(old(errors), code)
      ensures |old(errors)| <= ERROR_LIMIT ==> errors == Last(old(errors) + [code], ERROR_LIMIT)
    {
      rejected := rejected + 1;
      errors := errors + [code];
      if |errors| > ERROR_LIMIT {
        errors := errors[1..];
      }
    }

    method StoreAndProject(e: Envelope, fails: bool)
      modifies this`deduped, this`persisted, this`projected, this`rejected, this`errors, this`suspended
      modifies store, projector
      ensures Now() == Store(old(Now()), e, World(), fails)
    {
      hide EventLog.Append, Projection.Applied;
      EventLog.RefusalKeepsLog(store.codec, store.State(), e, fails);
      var verdict := store.AppendEvent(e, fails);
      match verdict {
        case WriteFailed =>
          RecordRejection(InternalError);
        case Unidentified =>
          RecordRejection(InternalError);
        case DuplicateId =>
          deduped := deduped + 1;
        case DuplicateDigest =>
          deduped := deduped + 1;
        case Appended(_) =>
          persisted := persisted + 1;
          var ok := projector.ApplyObservation(e);
          if ok {
            projected := projected + 1;
            suspended := suspended + 1;
          } else {
            RecordRejection(InternalError);
          }
      }
    }

    /** Normalises, validates, corrects the clock and resolves identities. */
    method ScreenEvent(raw: Raw, w: Observation.World) returns (screening: Screening)
      ensures screening == Screen(raw, w)
    {
      var normalized := Normalize(raw, w);
      if normalized.None? {
        return Thrown(false);
      }
      var envelope := normalized.value;
      if Problems(envelope) != [] {
        return Invalid;
      }
      if envelope.occurredAt.At? && envelope.occurredAt.ms > w.now + SKEW_TOLERANCE {
        envelope := envelope.(occurredAt := At(w.now), skewCorrected := true);
      }
      if envelope.actor.Some? && envelope.actor.value.id.None? {
        return Thrown(true);
      }
      return Passed(envelope.(observed := true));
    }

    method HandleScreened(screening: Screening, fails: bool)
      modifies this, store, projector
      ensures Now() == Handle(old(Now()), screening, World(), fails)
    {
      hide Store;
      received := received + 1;
      match screening {
        case Invalid =>
          RecordRejection(SchemaInvalid);
        case Thrown(passedValidation) =>
          if passedValidation {
            validated := validated + 1;
          }
          RecordRejection(InternalError);
        case Passed(e) =>
          validated := validated + 1;
          StoreAndProject(e, fails);
      }
    }

    /** Runs one ingestion until it waits for the engine or ends. */
    method Ingest(raw: Raw, w: Observation.World, fails: bool)
      modifies this, store, projector
      ensures Now() == Begin(old(Now()), raw, w, World(), fails)
    {
      var screening := ScreenEvent(raw, w);
      HandleScreened(screening, fails);
    }

    /** Finishes one suspended ingestion. */
    method Finish(answered: bool)
      requires suspended > 0
      modifies this
      ensures Now() == Resume(old(Now()), answered)
    {
      suspended := suspended - 1;
      if !answered {
        RecordRejection(InternalError);
      }
    }
  }
}
