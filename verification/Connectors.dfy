/** Connector states: the transition table, the per-connector record and the diagnostic event window. */
module Connectors {
  import opened Wrappers
  import opened Text
  import opened Sequences

  // Instants are nanoseconds; zero is the zero time, "not set".
  type Instant = int

  datatype Phase = Unset | Disconnected | Connecting | Live | Degraded | Stale

  datatype Connector = Connector(
    id: string, phase: Phase, since: Instant, stableSince: Instant, lastObservedAt: Instant, errorClass: string,
    failures: nat, lastSuccessAt: Instant, lastFailureAt: Instant, lastRecoveryMs: int, lastReason: string)

  const NEW_CONNECTOR := Connector("", Unset, 0, 0, 0, "", 0, 0, 0, 0, "")

  /** Anything that is no state name counts as degraded. */
  function Normalize(text: string): Phase {
    var s := ToLower(TrimSpace(text));
    if s == "disconnected" then Disconnected
    else if s == "connecting" then Connecting
    else if s == "live" then Live
    else if s == "stale" then Stale
    else Degraded
  }

  /**
   The transition table. Data goes stale only where there may have been some: not from disconnected or connecting.
   */
  predicate Allowed(from: Phase, to: Phase) {
    match to
    case Unset => false
    case Stale => from.Unset? || from.Live? || from.Degraded? || from.Stale?
    case _ => true
  }

  /** The clock is read once for the record, and again for the diagnostic event. */
  datatype Report = Report(
    id: string, phase: Phase, errorClass: string, reason: string, now: Instant, loggedAt: Instant)

  function Updated(prev: Connector, r: Report): Connector {
    var before := prev.phase;
    var beforeSince := if prev.id == "" then r.now else prev.since;
    var c1 := if prev.id == "" then prev.(id := r.id, since := r.now) else prev;
    var c2 := if c1.phase != r.phase then c1.(phase := r.phase, since := r.now) else c1;
    var c3 := c2.(errorClass := r.errorClass, lastReason := r.reason);
    match r.phase
    case Live =>
      var c4 :=
        if before != Live then
          var recovering := beforeSince != 0 && (before == Degraded || before == Stale || before == Connecting);
          var d := if r.now - beforeSince < 0 then 0 else r.now - beforeSince;
          (if recovering then c3.(lastRecoveryMs := d / 1_000_000) else c3).(stableSince := r.now)
        else if c3.stableSince == 0 then c3.(stableSince := c3.since)
        else c3;
      c4.(lastObservedAt := r.now, lastSuccessAt := r.now, failures := 0)
    case _ =>
      var c4 := if before == Live then c3.(stableSince := 0) else c3;
      if r.phase == Degraded || r.phase == Stale then c4.(lastFailureAt := r.now, failures := c4.failures + 1) else c4
  }

  // ---- Diagnostics ----------------------------------------------------------

  const EVENT_LIMIT: nat := 128

  datatype Transition = Transition(
    at: Instant, subject: string, from: Phase, to: Phase, reason: string, errorClass: string)

  function Pushed(window: seq<Transition>, e: Transition): seq<Transition> {
    (if |window| >= EVENT_LIMIT then window[|window| - EVENT_LIMIT + 1..] else window) + [e]
  }

  // ---- Whole runs -----------------------------------------------------------

  /** The hub's state, and for each connector the reports it accepted and every transition ever recorded. */
  datatype Hub = Hub(connectors: map<string, Connector>, window: seq<Transition>)

  function Lookup(hub: Hub, id: string): Connector {
    if id in hub.connectors then hub.connectors[id] else NEW_CONNECTOR
  }

  predicate Accepts(hub: Hub, r: Report) {
    r.id != "" && Allowed(Lookup(hub, r.id).phase, r.phase)
  }

  function TransitionOf(hub: Hub, r: Report): Transition {
    Transition(r.loggedAt, r.id, Lookup(hub, r.id).phase, r.phase, r.reason, r.errorClass)
  }

  function Next(hub: Hub, r: Report): Hub {
    if !Accepts(hub, r) then hub
    else
      Hub(hub.connectors[r.id := Updated(Lookup(hub, r.id), r)],
          if Lookup(hub, r.id).phase != r.phase then Pushed(hub.window, TransitionOf(hub, r)) else hub.window)
  }

  const EMPTY_HUB := Hub(map[], [])

  function After(rs: seq<Report>): Hub {
    if rs == [] then EMPTY_HUB else Next(After(rs[..|rs| - 1]), rs[|rs| - 1])
  }

  /** Every transition ever recorded. */
  function History(rs: seq<Report>): seq<Transition> {
    if rs == [] then []
    else
      var hub, r := After(rs[..|rs| - 1]), rs[|rs| - 1];
      History(rs[..|rs| - 1])
      + if Accepts(hub, r) && Lookup(hub, r.id).phase != r.phase then [TransitionOf(hub, r)] else []
  }

  /** The accepted reports of one connector. */
  function Heard(rs: seq<Report>, id: string): seq<Report> {
    if rs == [] then []
    else
      var hub, r := After(rs[..|rs| - 1]), rs[|rs| - 1];
      Heard(rs[..|rs| - 1], id) + if r.id == id && Accepts(hub, r) then [r] else []
  }

  /** Degraded and stale reports since the last live one; connecting and disconnected ones change nothing. */
  function FailuresSinceLive(heard: seq<Report>): nat {
    if heard == [] || heard[|heard| - 1].phase == Live then 0
    else
      FailuresSinceLive(heard[..|heard| - 1])
      + if heard[|heard| - 1].phase == Degraded || heard[|heard| - 1].phase == Stale then 1 else 0
  }

  /** When the phase last changed. */
  function ChangedAt(heard: seq<Report>): Instant {
    if heard == [] then 0
    else
      var k := |heard| - 1;
      if k == 0 || heard[k].phase != heard[k - 1].phase then heard[k].now else ChangedAt(heard[..k])
  }

  function LastHeard(heard: seq<Report>, phases: set<Phase>): Instant {
    if heard == [] then 0
    else if heard[|heard| - 1].phase in phases then heard[|heard| - 1].now
    else LastHeard(heard[..|heard| - 1], phases)
  }

  /** The milliseconds spent in the phase before the last return to live, if that was one to recover from. */
  function LastRecovery(heard: seq<Report>): int {
    if heard == [] then 0
    else
      var k := |heard| - 1;
      if heard[k].phase == Live && k > 0 && heard[k - 1].phase in {Degraded, Stale, Connecting} then
        var d := heard[k].now - ChangedAt(heard[..k]);
        (if d < 0 then 0 else d) / 1_000_000
      else LastRecovery(heard[..k])
  }

  predicate ClockRuns(rs: seq<Report>) {
    forall i | 0 <= i < |rs| :: rs[i].now != 0
  }

  /** What a connector's record says, in terms of the reports it accepted. */
  ghost predicate Tells(c: Connector, heard: seq<Report>) {
    if heard == [] then c == NEW_CONNECTOR
    else
      var last := heard[|heard| - 1];
      && c.id == last.id && c.phase == last.phase && !c.phase.Unset?
      && c.since == ChangedAt(heard) && c.since != 0
      && (c.stableSince != 0 <==> c.phase == Live)
      && (c.phase == Live ==> c.stableSince == c.since)
      && c.failures == FailuresSinceLive(heard)
      && c.errorClass == last.errorClass && c.lastReason == last.reason
      && c.lastObservedAt == LastHeard(heard, {Live}) && c.lastSuccessAt == c.lastObservedAt
      && c.lastFailureAt == LastHeard(heard, {Degraded, Stale})
      && c.lastRecoveryMs == LastRecovery(heard)
  }

  lemma UpdateTells(c: Connector, heard: seq<Report>, r: Report)
    requires Tells(c, heard) && r.now != 0 && r.id != "" && !r.phase.Unset?
    requires heard != [] ==> c.id == r.id
    ensures Tells(Updated(c, r), heard + [r])
  {
    var longer := heard + [r];
    assert longer[..|heard|] == heard;
    if heard != [] {
      assert longer[|heard| - 1] == heard[|heard| - 1];
    }
  }

  lemma {:induction false} HeardIsOwn(rs: seq<Report>, id: string)
    ensures forall i | 0 <= i < |Heard(rs, id)| :: Heard(rs, id)[i].id == id && !Heard(rs, id)[i].phase.Unset?
  {
    if rs != [] {
      HeardIsOwn(rs[..|rs| - 1], id);
    }
  }

  /**
   After any reports each connector's record is what its accepted reports say: its state is the last of them,
   `since` when the state last changed, `stableSince` set exactly while live and then equal to it, and the failure
   count the degraded and stale reports since the last live one.
   */
  lemma {:induction false} RecordsTellTheirHistory(rs: seq<Report>, id: string)
    requires ClockRuns(rs)
    ensures Tells(Lookup(After(rs), id), Heard(rs, id))
    ensures id in After(rs).connectors <==> Heard(rs, id) != []
  {
    if rs != [] {
      var earlier, r := rs[..|rs| - 1], rs[|rs| - 1];
      RecordsTellTheirHistory(earlier, id);
      HeardIsOwn(earlier, id);
      if r.id == id && Accepts(After(earlier), r) {
        UpdateTells(Lookup(After(earlier), id), Heard(earlier, id), r);
      } else {
        assert Heard(rs, id) == Heard(earlier, id);
      }
    }
  }

  lemma UpdatedPhase(c: Connector, r: Report)
    ensures Updated(c, r).phase == r.phase
  {
  }

  lemma {:induction false} PhaseIsLastHeard(rs: seq<Report>, id: string)
    ensures var heard := Heard(rs, id);
            Lookup(After(rs), id).phase == if heard == [] then Unset else heard[|heard| - 1].phase
  {
    if rs != [] {
      hide Updated, Allowed, Pushed;
      var earlier, r := rs[..|rs| - 1], rs[|rs| - 1];
      PhaseIsLastHeard(earlier, id);
      UpdatedPhase(Lookup(After(earlier), r.id), r);
    }
  }

  /**
   What is refused after any reports: one that names no connector, and one that calls a connector stale whose last
   accepted report was that it is disconnected or connecting. Nothing else is.
   */
  lemma RefusedIff(rs: seq<Report>, r: Report)
    requires !r.phase.Unset?
    ensures !Accepts(After(rs), r) <==>
              || r.id == ""
              || (&& r.phase == Stale && Heard(rs, r.id) != []
                  && Heard(rs, r.id)[|Heard(rs, r.id)| - 1].phase in {Disconnected, Connecting})
  {
    hide After, Heard;
    PhaseIsLastHeard(rs, r.id);
    HeardIsOwn(rs, r.id);
  }

  /** The transitions of one connector. */
  function Of(history: seq<Transition>, id: string): seq<Transition> {
    if history == [] then []
    else
      var e := history[|history| - 1];
      Of(history[..|history| - 1], id) + if e.subject == id then [e] else []
  }

  predicate Follows(path: seq<Transition>, i: nat, start: Phase)
    requires i < |path|
  {
    && Allowed(path[i].from, path[i].to) && path[i].from != path[i].to
    && path[i].from == if i == 0 then start else path[i - 1].to
  }

  /**
   A path along the table: each transition is allowed, changes the state, and starts where the one before it
   ended.
   */
  ghost predicate IsPath(path: seq<Transition>, start: Phase, end: Phase) {
    && (forall i | 0 <= i < |path| :: Follows(path, i, start))
    && end == if path == [] then start else path[|path| - 1].to
  }

  lemma ExtendPath(path: seq<Transition>, start: Phase, end: Phase, e: Transition)
    requires IsPath(path, start, end) && e.from == end && e.from != e.to && Allowed(e.from, e.to)
    ensures IsPath(path + [e], start, e.to)
  {
    var longer := path + [e];
    forall i | 0 <= i < |longer|
      ensures Follows(longer, i, start)
    {
      assert i < |path| ==> Follows(path, i, start);
    }
  }

  lemma OfLonger(history: seq<Transition>, e: Transition, id: string)
    ensures Of(history + [e], id) == Of(history, id) + if e.subject == id then [e] else []
  {
    assert (history + [e])[..|history|] == history;
  }

  /**
   Each connector's transitions, over the whole history, are a connected path of the table from nothing to its
   current state, also when calls for different connectors are mixed and some are refused.
   */
  lemma {:induction false} TransitionsFormPath(rs: seq<Report>, id: string)
    ensures IsPath(Of(History(rs), id), Unset, Lookup(After(rs), id).phase)
  {
    if rs != [] {
      var earlier, r := rs[..|rs| - 1], rs[|rs| - 1];
      TransitionsFormPath(earlier, id);
      StepFormsPath(After(earlier), History(earlier), r, id);
    }
  }

  /** A connector goes stale only from live or degraded, or as the first thing heard of it. */
  lemma StaleOnlyAfterData(rs: seq<Report>, id: string, i: nat)
    requires i < |Of(History(rs), id)| && Of(History(rs), id)[i].to.Stale?
    ensures Of(History(rs), id)[i].from in (if i == 0 then {Unset} else {Live, Degraded})
  {
    TransitionsFormPath(rs, id);
    assert Follows(Of(History(rs), id), i, Unset);
    if i > 0 {
      assert Follows(Of(History(rs), id), i - 1, Unset);
    }
  }

  lemma StepFormsPath(hub: Hub, history: seq<Transition>, r: Report, id: string)
    requires IsPath(Of(history, id), Unset, Lookup(hub, id).phase)
    ensures var moved := Accepts(hub, r) && Lookup(hub, r.id).phase != r.phase;
            IsPath(Of(history + if moved then [TransitionOf(hub, r)] else [], id), Unset,
                   Lookup(Next(hub, r), id).phase)
  {
    if Accepts(hub, r) && Lookup(hub, r.id).phase != r.phase {
      OfLonger(history, TransitionOf(hub, r), id);
      if r.id == id {
        ExtendPath(Of(history, id), Unset, Lookup(hub, id).phase, TransitionOf(hub, r));
      } else {
        assert Of(history, id) + [] == Of(history, id);
      }
    } else {
      assert history + [] == history;
    }
  }

  lemma PushKeepsLast(history: seq<Transition>, e: Transition)
    ensures Pushed(Last(history, EVENT_LIMIT), e) == Last(history + [e], EVENT_LIMIT)
  {
  }

  /** The diagnostic window is always the last 128 transitions of the whole history, in order. */
  lemma {:induction false} WindowIsLatestHistory(rs: seq<Report>)
    ensures After(rs).window == Last(History(rs), 128)
  {
    if rs != [] {
      var earlier, r := rs[..|rs| - 1], rs[|rs| - 1];
      var hub := After(earlier);
      WindowIsLatestHistory(earlier);
      if Accepts(hub, r) && Lookup(hub, r.id).phase != r.phase {
        PushKeepsLast(History(earlier), TransitionOf(hub, r));
      } else {
        assert History(earlier) + [] == History(earlier);
      }
    }
  }

  // ---- Reports as they arrive -----------------------------------------------

  /** The report a call comes to. */
  function ReportOf(id: string, state: string, errorClass: string, reason: string, now: Instant, loggedAt: Instant)
    : Report
  {
    var why := TrimSpace(reason);
    Report(TrimSpace(id), Normalize(state), errorClass, if why == "" then "unspecified" else why, now, loggedAt)
  }

  /** Blanks around an identifier, a state or a reason neither make another connector nor another report. */
  lemma BlanksMakeNoOtherReport(before: string, after: string, id: string, state: string, errorClass: string,
                                reason: string, now: Instant, loggedAt: Instant)
    requires Blank(before) && Blank(after)
    ensures ReportOf(before + id + after, before + state + after, errorClass, before + reason + after, now,
                     loggedAt)
         == ReportOf(id, state, errorClass, reason, now, loggedAt)
  {
    BlanksAroundDoNotMatter(before, id, after);
    BlanksAroundDoNotMatter(before, state, after);
    BlanksAroundDoNotMatter(before, reason, after);
  }

  /**
   And nothing else is taken off: the identifier and the reason are what is left of the given ones, a blank reason
   is said to be unspecified, and the rest is as given.
   */
  lemma ReportSaysWhatWasGiven(id: string, state: string, errorClass: string, reason: string, now: Instant,
                             loggedAt: Instant)
    ensures var r := ReportOf(id, state, errorClass, reason, now, loggedAt);
            && IsTrimOf(r.id, id)
            && (!Blank(reason) ==> IsTrimOf(r.reason, reason)) && (Blank(reason) ==> r.reason == "unspecified")
            && r.errorClass == errorClass && r.now == now && r.loggedAt == loggedAt
  {
    hide TrimSpace, IsTrimOf;
    TrimmedIff(id, TrimSpace(id));
    TrimmedIff(reason, TrimSpace(reason));
    BlankIff(reason);
  }

  function NameOf(p: Phase): string {
    match p
    case Unset => ""
    case Disconnected => "disconnected"
    case Connecting => "connecting"
    case Live => "live"
    case Degraded => "degraded"
    case Stale => "stale"
  }

  /** A report's state is read from its name, in any case and among blanks; whatever names no state is degraded. */
  lemma PhaseIsReadIff(p: Phase, before: string, text: string, after: string)
    requires Blank(before) && Blank(after) && SolidEnds(text) && !p.Unset?
    ensures Normalize(before + text + after) == p <==>
              || ToLower(text) == NameOf(p)
              || (p.Degraded? && forall q: Phase | !q.Unset? :: ToLower(text) != NameOf(q))
  {
    hide TrimSpace, ToLower, Blank, SolidEnds;
    TrimTakesBlanks(before, text, after);
    var named := Normalize(before + text + after);
    assert named != Degraded ==> ToLower(text) == NameOf(named);
    assert forall q: Phase | !q.Unset? && ToLower(text) == NameOf(q) :: named == q;
  }

  // ---- The calls ------------------------------------------------------------

  class ConnectorHub {
    var connectors: map<string, Connector>
    var diagEvents: seq<Transition>

    constructor ()
      ensures State() == EMPTY_HUB
    {
      connectors, diagEvents := map[], [];
    }

    ghost function State(): Hub
      reads this
    {
      Hub(connectors, diagEvents)
    }

    /** The window is shifted in place: the newest events move to the front, then the slice is cut. */
    method RecordDiagnosticEvent(e: Transition)
      modifies this`diagEvents
      ensures diagEvents == Pushed(old(diagEvents), e)
    {
      if |diagEvents| >= EVENT_LIMIT {
        ghost var before := diagEvents;
        var shift := |diagEvents| - EVENT_LIMIT + 1;
        for i := 0 to EVENT_LIMIT - 1
          invariant |diagEvents| == |before|
          invariant forall k | 0 <= k < i :: diagEvents[k] == before[k + shift]
          invariant forall k | i <= k < |before| :: diagEvents[k] == before[k]
        {
          diagEvents := diagEvents[i := diagEvents[i + shift]];
        }
        diagEvents := diagEvents[..EVENT_LIMIT - 1];
        assert diagEvents == before[shift..];
      }
      diagEvents := diagEvents + [e];
    }

    /** The record's new contents, field by field. */
    method UpdateRecord(prev0: Connector, r: Report) returns (prev: Connector)
      ensures prev == Updated(prev0, r)
    {
      prev := prev0;
      var before, beforeSince := prev.phase, prev.since;
      if prev.id == "" {
        prev := prev.(id := r.id, since := r.now);
        beforeSince := r.now;
      }
      if prev.phase != r.phase {
        prev := prev.(phase := r.phase, since := r.now);
      }
      prev := prev.(errorClass := r.errorClass, lastReason := r.reason);
      if r.phase == Live {
        if before != Live {
          if beforeSince != 0 && (before == Degraded || before == Stale || before == Connecting) {
            var d := r.now - beforeSince;
            if d < 0 {
              d := 0;
            }
            prev := prev.(lastRecoveryMs := d / 1_000_000);
          }
          prev := prev.(stableSince := r.now);
        } else if prev.stableSince == 0 {
          prev := prev.(stableSince := prev.since);
        }
        prev := prev.(lastObservedAt := r.now, lastSuccessAt := r.now, failures := 0);
      } else if r.phase == Degraded || r.phase == Stale {
        if before == Live {
          prev := prev.(stableSince := 0);
        }
        prev := prev.(lastFailureAt := r.now, failures := prev.failures + 1);
      } else if before == Live {
        prev := prev.(stableSince := 0);
      }
    }

    method TransitionConnector(id0: string, state: string, errorClass: string, reason0: string, now: Instant,
                               loggedAt: Instant) returns (ok: bool)
      modifies this
      ensures var r := ReportOf(id0, state, errorClass, reason0, now, loggedAt);
              && (ok <==> Accepts(old(State()), r))
              && State() == Next(old(State()), r)
    {
      var id := TrimSpace(id0);
      if id == "" {
        return false;
      }
      var phase := Normalize(state);
      var reason := TrimSpace(reason0);
      if reason == "" {
        reason := "unspecified";
      }
      var prev := if id in connectors then connectors[id] else NEW_CONNECTOR;
      if !Allowed(prev.phase, phase) {
        return false;
      }
      var record := UpdateRecord(prev, Report(id, phase, errorClass, reason, now, loggedAt));
      connectors := connectors[id := record];
      if prev.phase != phase {
        RecordDiagnosticEvent(Transition(loggedAt, id, prev.phase, phase, reason, errorClass));
      }
      return true;
    }
  }
}
