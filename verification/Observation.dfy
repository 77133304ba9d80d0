/** The observation envelope: its contract, and how raw events are brought into it. */
module Observation {
  import opened Wrappers

  /** A date as it arrives: absent, text that is no date, or milliseconds. */
  datatype Timestamp = Missing | Unparsed(text: string) | At(ms: int)

  datatype Actor = Actor(id: Option<string>)

  datatype Provenance = Provenance(commitSha: string)

  const SCHEMA: string := "aftergraph.observation/1"

  /** An empty string stands for an absent field, which the contract's truth tests read the same way. */
  datatype Envelope = Envelope(
    schema: string, id: string, system: string, adapter: string, subjectType: string, subjectId: string,
    eventType: string, occurredAt: Timestamp, observedAt: Timestamp, freshness: Timestamp, digest: string,
    actor: Option<Actor>, provenance: Option<Provenance>, payload: string, skewCorrected: bool, observed: bool)

  datatype Problem = BadSchema | BadId | BadSource | BadSubject | BadEvent | BadFreshness | BadIntegrity

  function When(condition: bool, problem: Problem): seq<Problem> {
    if condition then [problem] else []
  }

  function Problems(e: Envelope): seq<Problem> {
    When(e.schema != SCHEMA, BadSchema)
    + When(e.id == "", BadId)
    + When(e.system == "" || e.adapter == "", BadSource)
    + When(e.subjectType == "" || e.subjectId == "", BadSubject)
    + When(e.eventType == "" || e.occurredAt.Missing? || e.observedAt.Missing?, BadEvent)
    + When(e.freshness.Missing?, BadFreshness)
    + When(e.digest == "", BadIntegrity)
  }

  predicate Valid(e: Envelope) {
    Problems(e) == []
  }

  /** An envelope is valid iff nothing the contract asks for is missing. */
  lemma ValidIff(e: Envelope)
    ensures Valid(e) <==>
              && e.schema == SCHEMA && e.id != "" && e.system != "" && e.adapter != ""
              && e.subjectType != "" && e.subjectId != ""
              && e.eventType != "" && !e.occurredAt.Missing? && !e.observedAt.Missing? && !e.freshness.Missing?
              && e.digest != ""
  {
  }

  /** A raw event that is no envelope yet; `whole` is the raw event itself. */
  datatype Foreign = Foreign(
    id: string, repoName: string, subjectType: string, subjectId: string, system: string, adapter: string,
    kind: string, eventType: string, createdAt: Timestamp, occurredAt: Timestamp, actor: Option<Actor>,
    payloadHead: string, payloadSha: string, sha: string, payload: string, whole: string)

  /** What arrives: nothing at all, an envelope, or some other event. */
  datatype Raw = Null | Canonical(envelope: Envelope) | Other(event: Foreign)

  /** The clock and the random identifier an ingestion draws, and the digest function. */
  datatype World = World(now: int, freshId: string, digest: (string, string, string, string) -> string)

  function Or(a: string, b: string): string {
    if a != "" then a else b
  }

  function OrTime(a: Timestamp, b: Timestamp): Timestamp {
    if a.Missing? then b else a
  }

  /** Nothing to normalise throws; an envelope passes through. */
  function Normalize(raw: Raw, w: World): Option<Envelope> {
    match raw
    case Null => None
    case Canonical(e) => Some(e)
    case Other(f) =>
      var id := Or(f.id, w.freshId);
      var hasSubject := f.repoName == "" && f.subjectType != "" && f.subjectId != "";
      var subjectType := if hasSubject then f.subjectType else "Repository";
      var subjectId := if f.repoName != "" then f.repoName else if hasSubject then f.subjectId else "unknown";
      var payload := Or(f.payload, f.whole);
      Some(Envelope(
             SCHEMA, id, Or(f.system, "github"), Or(f.adapter, "github-observer"), subjectType, subjectId,
             Or(f.kind, Or(f.eventType, "activity.recorded")), OrTime(f.createdAt, OrTime(f.occurredAt, At(w.now))),
             At(w.now), At(w.now), w.digest(id, subjectType, subjectId, payload),
             if f.actor.Some? && f.actor.value.id.None? then Some(Actor(Some("unknown"))) else f.actor,
             Some(Provenance(Or(f.payloadHead, Or(f.payloadSha, f.sha)))), payload, false, false))
  }

  /**
   Every other event becomes a valid envelope that carries provenance and a named actor. Whatever it says itself is
   kept: its identity, source, kind, actor and payload; a repository goes before a subject; and the commit and the
   time are the first of those it names. What it does not say is filled in.
   */
  lemma NormalizedForeignIsValid(f: Foreign, w: World)
    requires w.freshId != "" && forall i, t, s, p :: w.digest(i, t, s, p) != ""
    ensures var e := Normalize(Other(f), w).value;
            && Valid(e) && e.provenance.Some? && !e.observed && !e.skewCorrected
            && e.id == (if f.id != "" then f.id else w.freshId)
            && (f.system != "" ==> e.system == f.system) && (f.system == "" ==> e.system == "github")
            && (f.adapter != "" ==> e.adapter == f.adapter) && (f.adapter == "" ==> e.adapter == "github-observer")
            && (f.repoName != "" ==> e.subjectType == "Repository" && e.subjectId == f.repoName)
            && (f.repoName == "" && f.subjectType != "" && f.subjectId != "" ==>
                  e.subjectType == f.subjectType && e.subjectId == f.subjectId)
            && (f.repoName == "" && (f.subjectType == "" || f.subjectId == "") ==>
                  e.subjectType == "Repository" && e.subjectId == "unknown")
            && IsFirstOf(e.eventType, [f.kind, f.eventType, "activity.recorded"])
            && e.payload == (if f.payload != "" then f.payload else f.whole)
            && e.digest == w.digest(e.id, e.subjectType, e.subjectId, e.payload)
            && IsFirstOf(e.provenance.value.commitSha, [f.payloadHead, f.payloadSha, f.sha])
    ensures var e := Normalize(Other(f), w).value;
            && (!f.createdAt.Missing? ==> e.occurredAt == f.createdAt)
            && (f.createdAt.Missing? && !f.occurredAt.Missing? ==> e.occurredAt == f.occurredAt)
            && (f.createdAt.Missing? && f.occurredAt.Missing? ==> e.occurredAt == At(w.now))
            && e.observedAt == At(w.now) && e.freshness == At(w.now)
            && (f.actor.None? ==> e.actor.None?)
            && (f.actor.Some? ==> e.actor.Some? && e.actor.value.id.Some?)
            && (f.actor.Some? && f.actor.value.id.Some? ==> e.actor == f.actor)
            && (f.actor.Some? && f.actor.value.id.None? ==> e.actor.value.id.value == "unknown")
  {
    ValidIff(Normalize(Other(f), w).value);
    FirstOfThree(f.kind, f.eventType, "activity.recorded");
    FirstOfThree(f.payloadHead, f.payloadSha, f.sha);
  }

  lemma FirstOfThree(a: string, b: string, c: string)
    ensures IsFirstOf(Or(a, Or(b, c)), [a, b, c])
  {
    var texts := [a, b, c];
    assert texts[0] == a && texts[1] == b && texts[2] == c;
  }

  /** The first of the texts that says something, or nothing if none does. */
  predicate IsFirstOf(s: string, texts: seq<string>) {
    if s == "" then forall t | t in texts :: t == ""
    else exists i :: 0 <= i < |texts| && texts[i] == s && forall j | 0 <= j < i :: texts[j] == ""
  }

  const SKEW_TOLERANCE: int := 300000

  /** Occurrences more than five minutes ahead are pulled back to the present. */
  function CorrectSkew(e: Envelope, now: int): Envelope {
    if e.occurredAt.At? && e.occurredAt.ms > now + SKEW_TOLERANCE
    then e.(occurredAt := At(now), skewCorrected := true) else e
  }

  /** Throws on an actor without an identifier. */
  function ResolveIdentities(e: Envelope): Option<Envelope> {
    if e.actor.Some? && e.actor.value.id.None? then None else Some(e.(observed := true))
  }
}
