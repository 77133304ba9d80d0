/**
 Admission control in front of the external decision service: two short lock sections around a slow call, a
 budget, and suppression of repeated states.
 */
module DecisionAdmission {
  import opened Wrappers

  // Instants are nanoseconds; a day is identified by its number in UTC.
  type Instant = int
  const SECOND: int := 1_000_000_000
  const MINUTE: int := 60 * SECOND
  const DAY: int := 86_400 * SECOND

  function DayOf(t: Instant): int {
    t / DAY
  }

  datatype Decision = Decision(
    evaluatedAt: Option<Instant>, fingerprint: string, mode: string, reason: string,
    failed: bool, callsToday: int, dailyBudget: int, budgetRemaining: int)

  /** One evaluator's arguments and the settings and clock it read before taking the lock. */
  datatype Request = Request(
    configured: bool, auto: bool, force: bool, reason: string, fingerprint: string,
    now: Instant, minIntervalSec: int, dailyBudget: int)
  {
    /** The configured interval, but never under a minute. */
    function MinInterval(): (r: int)
      ensures r >= 60 * 1_000_000_000 && r >= minIntervalSec * 1_000_000_000
      ensures r in {60 * 1_000_000_000, minIntervalSec * 1_000_000_000}
    {
      if minIntervalSec * SECOND < MINUTE then MINUTE else minIntervalSec * SECOND
    }
  }

  /** The fields under the lock. `day` is nothing until the first request. */
  datatype Gate = Gate(day: Option<int>, calls: int, running: bool, lastHash: string, decision: Decision)

  const EMPTY_DECISION := Decision(None, "", "", "", false, 0, 0, 0)
  const EMPTY_GATE := Gate(None, 0, false, "", EMPTY_DECISION)

  datatype Verdict = Declined | Busy | Suppressed | Paused | Admitted

  /** The first lock section. */
  function Reserve(g0: Gate, q: Request): (Gate, Verdict) {
    if !q.configured || (!q.force && !q.auto) then (g0, Declined)
    else
      var g := if g0.day != Some(DayOf(q.now)) then g0.(day := Some(DayOf(q.now)), calls := 0) else g0;
      if g.running then (g, Busy)
      else if !q.force && g.lastHash == q.fingerprint && g.decision.evaluatedAt.Some?
              && q.now - g.decision.evaluatedAt.value < q.MinInterval() then (g, Suppressed)
      else if q.dailyBudget > 0 && g.calls >= q.dailyBudget && !q.force then
        (g.(decision := g.decision.(mode := "budget-paused", reason := "daily-budget", callsToday := g.calls,
                                    dailyBudget := q.dailyBudget, budgetRemaining := 0)), Paused)
      else (g.(running := true), Admitted)
  }

  /** The second lock section, after the call ended at `end`. */
  function Commit(g: Gate, q: Request, end: Instant, failed: bool): Gate {
    var calls := g.calls + 1;
    var remaining := if q.dailyBudget - calls < 0 then 0 else q.dailyBudget - calls;
    g.(running := false, calls := calls, lastHash := q.fingerprint,
       decision := Decision(Some(end), q.fingerprint, if q.force then "operator" else "native-auto", q.reason,
                            failed, calls, q.dailyBudget, remaining))
  }

  // ---- Interleavings --------------------------------------------------------

  /** One lock section of one evaluator. */
  datatype Event =
    | Arrive(who: nat, request: Request)
    | Return(who: nat, end: Instant, failed: bool)

  /** What happened, in lock order. */
  datatype Entry =
    | Reset(to: int)
    | Started(who: nat, request: Request)
    | Finished(request: Request, end: Instant, day: Option<int>)

  /** `inFlight` are the evaluators between their two lock sections. */
  datatype System = System(gate: Gate, inFlight: map<nat, Request>, log: seq<Entry>)

  const INITIAL := System(EMPTY_GATE, map[], [])

  /** An evaluator arrives when it is not already in a call, and returns from a call it made. */
  predicate Enabled(s: System, e: Event) {
    match e
    case Arrive(who, _) => who !in s.inFlight
    case Return(who, _, _) => who in s.inFlight
  }

  function Next(s: System, e: Event): System
    requires Enabled(s, e)
  {
    match e
    case Arrive(who, q) =>
      var (g, verdict) := Reserve(s.gate, q);
      var log := if g.day != s.gate.day then s.log + [Reset(DayOf(q.now))] else s.log;
      if verdict.Admitted? then System(g, s.inFlight[who := q], log + [Started(who, q)])
      else System(g, s.inFlight, log)
    case Return(who, end, failed) =>
      var q := s.inFlight[who];
      System(Commit(s.gate, q, end, failed), s.inFlight - {who}, s.log + [Finished(q, end, s.gate.day)])
  }

  /** The states an interleaving passes through: `trace[i]` is the state before `events[i]`. */
  ghost predicate IsRun(trace: seq<System>, events: seq<Event>) {
    && |trace| == |events| + 1
    && trace[0] == INITIAL
    && forall i | 0 <= i < |events| :: Enabled(trace[i], events[i]) && trace[i + 1] == Next(trace[i], events[i])
  }

  // ---- Properties of the log ------------------------------------------------

  /** Evaluations finished since the counter was last reset, and those of them nobody forced. */
  function CallsSinceReset(log: seq<Entry>): nat {
    if log == [] || log[|log| - 1].Reset? then 0
    else CallsSinceReset(log[..|log| - 1]) + if log[|log| - 1].Finished? then 1 else 0
  }

  function UnforcedSinceReset(log: seq<Entry>): nat {
    if log == [] || log[|log| - 1].Reset? then 0
    else
      UnforcedSinceReset(log[..|log| - 1])
      + if log[|log| - 1].Finished? && !log[|log| - 1].request.force then 1 else 0
  }

  function LastFinished(log: seq<Entry>): (last: Option<Entry>)
    ensures last.Some? ==> last.value.Finished?
  {
    if log == [] then None
    else if log[|log| - 1].Finished? then Some(log[|log| - 1])
    else LastFinished(log[..|log| - 1])
  }

  /** Starts and finishes alternate, beginning with a start: never two evaluations at once. */
  function InFlightAfter(log: seq<Entry>): int {
    if log == [] then 0
    else
      InFlightAfter(log[..|log| - 1])
      + match log[|log| - 1] { case Reset(_) => 0 case Started(_, _) => 1 case Finished(_, _, _) => -1 }
  }

  predicate Spaced(log: seq<Entry>, i: nat)
    requires i < |log| && log[i].Started?
  {
    var q := log[i].request;
    var previous := LastFinished(log[..i]);
    !q.force && previous.Some? && previous.value.request.fingerprint == q.fingerprint ==>
      q.now - previous.value.end >= q.MinInterval()
  }

  /** An evaluation nobody forced starts with fewer evaluations counted than the budget it read, if there is one. */
  predicate Afforded(log: seq<Entry>, i: nat)
    requires i < |log| && log[i].Started?
  {
    var q := log[i].request;
    !q.force && q.dailyBudget > 0 ==> CallsSinceReset(log[..i]) < q.dailyBudget
  }

  /** The setting may change during a run, but it is always a positive budget and never above this one. */
  predicate BudgetWithin(events: seq<Event>, budget: int) {
    forall i | 0 <= i < |events| && events[i].Arrive? :: 0 < events[i].request.dailyBudget <= budget
  }

  ghost predicate Tallied(s: System) {
    s.gate.calls == CallsSinceReset(s.log) && UnforcedSinceReset(s.log) <= s.gate.calls
  }

  ghost predicate OneFlight(s: System) {
    && (s.gate.running <==> s.inFlight != map[])
    && (forall who, other | who in s.inFlight && other in s.inFlight :: who == other)
    && InFlightAfter(s.log) == if s.gate.running then 1 else 0
  }

  ghost predicate Remembered(s: System) {
    && (match LastFinished(s.log)
        case None => s.gate.decision.evaluatedAt.None?
        case Some(last) =>
          && s.gate.decision.evaluatedAt == Some(last.end)
          && s.gate.lastHash == last.request.fingerprint)
    && AllStarts(s.log)
  }

  predicate AllStarts(log: seq<Entry>) {
    forall i | 0 <= i < |log| && log[i].Started? :: Spaced(log, i) && Afforded(log, i)
  }

  ghost predicate Inv(s: System) {
    Tallied(s) && OneFlight(s) && Remembered(s)
  }

  /** What an evaluation nobody forced adds to the count is still within the budget. */
  ghost predicate Within(s: System, budget: int) {
    && UnforcedSinceReset(s.log) <= budget
    && (forall who | who in s.inFlight && !s.inFlight[who].force :: s.gate.calls < budget)
  }

  lemma AppendEntry(log: seq<Entry>, e: Entry)
    ensures CallsSinceReset(log + [e]) ==
            if e.Reset? then 0 else CallsSinceReset(log) + if e.Finished? then 1 else 0
    ensures UnforcedSinceReset(log + [e]) ==
            if e.Reset? then 0 else UnforcedSinceReset(log) + if e.Finished? && !e.request.force then 1 else 0
    ensures LastFinished(log + [e]) == if e.Finished? then Some(e) else LastFinished(log)
    ensures InFlightAfter(log + [e]) == InFlightAfter(log) + if e.Started? then 1 else if e.Finished? then -1 else 0
    ensures forall i | 0 <= i < |log| :: (log + [e])[..i] == log[..i]
    ensures (log + [e])[..|log|] == log
  {
    assert (log + [e])[..|log|] == log;
  }

  lemma AppendKeepsStarts(log: seq<Entry>, e: Entry)
    requires AllStarts(log)
    requires e.Started? ==> Spaced(log + [e], |log|) && Afforded(log + [e], |log|)
    ensures AllStarts(log + [e])
  {
    forall i | 0 <= i < |log + [e]| && (log + [e])[i].Started?
      ensures Spaced(log + [e], i) && Afforded(log + [e], i)
    {
      if i < |log| {
        assert (log + [e])[..i] == log[..i];
        assert Spaced(log, i) && Afforded(log, i);
      }
    }
  }

  /** The clock's day is looked at first, whatever the verdict. */
  function Dated(s: System, q: Request): System {
    if s.gate.day == Some(DayOf(q.now)) then s
    else System(s.gate.(day := Some(DayOf(q.now)), calls := 0), s.inFlight, s.log + [Reset(DayOf(q.now))])
  }

  lemma DatedKeepsInv(s: System, q: Request, budget: int)
    requires Inv(s)
    ensures Inv(Dated(s, q))
    ensures budget > 0 && Within(s, budget) ==> Within(Dated(s, q), budget)
  {
    AppendEntry(s.log, Reset(DayOf(q.now)));
    AppendKeepsStarts(s.log, Reset(DayOf(q.now)));
  }

  lemma StartKeepsInv(s: System, who: nat, q: Request, budget: int)
    requires Inv(s) && !s.gate.running
    requires q.force || q.dailyBudget <= 0 || s.gate.calls < q.dailyBudget
    requires q.force || s.gate.lastHash != q.fingerprint || s.gate.decision.evaluatedAt.None?
             || q.now - s.gate.decision.evaluatedAt.value >= q.MinInterval()
    ensures var s' := System(s.gate.(running := true), s.inFlight[who := q], s.log + [Started(who, q)]);
            Inv(s') && (Within(s, budget) && 0 < q.dailyBudget <= budget ==> Within(s', budget))
  {
    var e := Started(who, q);
    AppendEntry(s.log, e);
    assert Spaced(s.log + [e], |s.log|) && Afforded(s.log + [e], |s.log|);
    AppendKeepsStarts(s.log, e);
    assert s.inFlight == map[] && who in s.inFlight[who := q];
  }

  lemma FinishKeepsInv(s: System, who: nat, end: Instant, failed: bool, budget: int)
    requires Inv(s) && who in s.inFlight
    ensures Inv(Next(s, Return(who, end, failed)))
    ensures Within(s, budget) ==> Within(Next(s, Return(who, end, failed)), budget)
  {
    var e := Finished(s.inFlight[who], end, s.gate.day);
    AppendEntry(s.log, e);
    AppendKeepsStarts(s.log, e);
    assert s.inFlight.Keys == {who};
    assert s.inFlight - {who} == map[];
  }

  /** The arrival gets as far as the lock. */
  predicate Counts(e: Event) {
    e.Arrive? && e.request.configured && (e.request.force || e.request.auto)
  }

  /** What an arrival does, case by case, in terms of the state whose day has been looked at. */
  lemma ArrivalCases(s: System, who: nat, q: Request)
    requires who !in s.inFlight
    ensures var verdict, dated, next := Reserve(s.gate, q).1, Dated(s, q), Next(s, Arrive(who, q));
            match verdict
            case Declined => next == s && !Counts(Arrive(who, q))
            case Admitted =>
              && Counts(Arrive(who, q))
              && next == System(dated.gate.(running := true), s.inFlight[who := q], dated.log + [Started(who, q)])
              && !dated.gate.running && (q.force || q.dailyBudget <= 0 || dated.gate.calls < q.dailyBudget)
              && (q.force || dated.gate.lastHash != q.fingerprint || dated.gate.decision.evaluatedAt.None?
                  || q.now - dated.gate.decision.evaluatedAt.value >= q.MinInterval())
            case _ =>
              && Counts(Arrive(who, q))
              && next == Annotated(dated, next.gate.decision)
              && next.gate.decision.evaluatedAt == dated.gate.decision.evaluatedAt
              && (verdict.Paused? ==>
                    next.gate.decision.callsToday == dated.gate.calls && next.gate.decision.budgetRemaining == 0)
  {
  }

  /** The same state under another report of the last decision. */
  function Annotated(s: System, d: Decision): System {
    s.(gate := s.gate.(decision := d))
  }

  lemma AnnotatedKeepsInv(s: System, d: Decision, budget: int)
    requires Inv(s) && d.evaluatedAt == s.gate.decision.evaluatedAt
    ensures Inv(Annotated(s, d))
    ensures Within(s, budget) ==> Within(Annotated(s, d), budget)
  {
  }

  /** Every step keeps the invariant, and the bound as long as the budget read is positive and not above it. */
  lemma StepKeepsInv(s: System, e: Event, budget: int)
    requires Inv(s) && Enabled(s, e)
    ensures Inv(Next(s, e))
    ensures Within(s, budget) && (e.Arrive? ==> 0 < e.request.dailyBudget <= budget) ==> Within(Next(s, e), budget)
  {
    hide Inv, Within, Next, Reserve;
    match e {
      case Arrive(who, q) =>
        ArrivalCases(s, who, q);
        DatedKeepsInv(s, q, budget);
        var verdict := Reserve(s.gate, q).1;
        if verdict.Admitted? {
          StartKeepsInv(Dated(s, q), who, q, budget);
        } else if !verdict.Declined? {
          AnnotatedKeepsInv(Dated(s, q), Next(s, e).gate.decision, budget);
        }
      case Return(who, end, failed) =>
        FinishKeepsInv(s, who, end, failed, budget);
    }
  }

  lemma {:induction false} RunKeepsInv(trace: seq<System>, events: seq<Event>)
    requires IsRun(trace, events)
    ensures forall i | 0 <= i < |trace| :: Inv(trace[i])
  {
    for k := 0 to |events|
      invariant forall i | 0 <= i <= k :: Inv(trace[i])
    {
      StepKeepsInv(trace[k], events[k], 0);
    }
  }

  lemma {:induction false} RunKeepsWithin(trace: seq<System>, events: seq<Event>, budget: int)
    requires IsRun(trace, events) && BudgetWithin(events, budget) && budget > 0
    ensures forall i | 0 <= i < |trace| :: Within(trace[i], budget)
  {
    RunKeepsInv(trace, events);
    for k := 0 to |events|
      invariant forall i | 0 <= i <= k :: Within(trace[i], budget)
    {
      StepKeepsInv(trace[k], events[k], budget);
    }
  }

  /**
   Under every interleaving, at most one evaluation is ever in flight: no two evaluators are between their lock
   sections, and starts and finishes alternate in the log.
   */
  lemma SingleFlight(trace: seq<System>, events: seq<Event>)
    requires IsRun(trace, events)
    ensures forall i | 0 <= i < |trace| ::
              && (forall who, other | who in trace[i].inFlight && other in trace[i].inFlight :: who == other)
              && 0 <= InFlightAfter(trace[i].log) <= 1
              && (trace[i].gate.running <==> trace[i].inFlight != map[])
  {
    RunKeepsInv(trace, events);
    assert forall i | 0 <= i < |trace| :: Inv(trace[i]);
  }

  /**
   Whatever budgets are read during a run, as long as they are positive: the evaluations nobody forced between two
   counter resets never exceed the largest of them.
   */
  lemma BudgetHoldsBetweenResets(trace: seq<System>, events: seq<Event>, budget: int)
    requires IsRun(trace, events) && BudgetWithin(events, budget) && budget > 0
    ensures forall i | 0 <= i < |trace| :: UnforcedSinceReset(trace[i].log) <= budget
  {
    RunKeepsWithin(trace, events, budget);
    assert forall i | 0 <= i < |trace| :: Within(trace[i], budget);
  }

  /**
   An evaluation nobody forced never starts within the minimum interval of the end of the previous one of the same
   state, nor with as many evaluations counted since the reset as the budget it read.
   */
  lemma RepeatsAreSpaced(trace: seq<System>, events: seq<Event>)
    requires IsRun(trace, events)
    ensures forall i, k | 0 <= i < |trace| && 0 <= k < |trace[i].log| && trace[i].log[k].Started? ::
              Spaced(trace[i].log, k) && Afforded(trace[i].log, k)
  {
    RunKeepsInv(trace, events);
    assert forall i | 0 <= i < |trace| :: Inv(trace[i]);
  }

  /**
   What it takes to be admitted, in terms of the log: the request counts, nobody is in flight, the last finished
   evaluation is of another state or long enough ago, and budget is left since the reset; being forced waives the
   last two.
   */
  lemma AdmittedIff(trace: seq<System>, events: seq<Event>, who: nat, q: Request)
    requires IsRun(trace, events) && who !in trace[|events|].inFlight
    ensures var s := trace[|events|];
            who in Next(s, Arrive(who, q)).inFlight <==>
              && Counts(Arrive(who, q)) && s.inFlight == map[]
              && Spaced(s.log + [Started(who, q)], |s.log|)
              && (q.force || q.dailyBudget <= 0 || CallsSinceReset(Dated(s, q).log) < q.dailyBudget)
  {
    RunKeepsInv(trace, events);
    var s := trace[|events|];
    assert Inv(s);
    DatedKeepsInv(s, q, 0);
    AdmittedExactly(s, who, q);
  }

  lemma AdmittedExactly(s: System, who: nat, q: Request)
    requires Inv(s) && Inv(Dated(s, q)) && who !in s.inFlight
    ensures who in Next(s, Arrive(who, q)).inFlight <==>
              && Counts(Arrive(who, q)) && s.inFlight == map[]
              && Spaced(s.log + [Started(who, q)], |s.log|)
              && (q.force || q.dailyBudget <= 0 || CallsSinceReset(Dated(s, q).log) < q.dailyBudget)
  {
    assert (s.log + [Started(who, q)])[..|s.log|] == s.log;
  }

  // ---- What is reported -----------------------------------------------------

  /** Days are those of the calendar in UTC, counted from the epoch. */
  lemma DayIff(t: Instant, day: int)
    ensures DayOf(t) == day <==> day * 24 * 3600 * 1_000_000_000 <= t < (day + 1) * 24 * 3600 * 1_000_000_000
  {
  }

  /** The report accounts for its budget: what is left is the budget less the calls, but never below zero. */
  predicate Accounts(d: Decision) {
    if d.callsToday <= d.dailyBudget then d.callsToday + d.budgetRemaining == d.dailyBudget
    else d.budgetRemaining == 0
  }

  /**
   What one step makes of the report. The end of an evaluation replaces it: its own reason and outcome, and the calls
   counted since the reset. A request refused for want of budget changes what is said about the mode, the reason and
   the budget. Nothing else changes anything.
   */
  ghost predicate ReportFollows(s: System, e: Event)
    requires Enabled(s, e)
  {
    var s', d := Next(s, e), Next(s, e).gate.decision;
    match e
    case Return(who, end, failed) =>
      var q := s.inFlight[who];
      && d.evaluatedAt == Some(end) && d.failed == failed && d.fingerprint == q.fingerprint && d.reason == q.reason
      && d.mode == (if q.force then "operator" else "native-auto")
      && d.callsToday == CallsSinceReset(s'.log) && d.dailyBudget == q.dailyBudget && Accounts(d)
    case Arrive(who, q) =>
      if && Counts(e) && s.inFlight == map[] && !q.force && Spaced(s.log + [Started(who, q)], |s.log|)
         && 0 < q.dailyBudget <= CallsSinceReset(s'.log)
      then
        && d.mode == "budget-paused" && d.reason == "daily-budget"
        && d.callsToday == CallsSinceReset(s'.log) && d.dailyBudget == q.dailyBudget && Accounts(d)
        && d.evaluatedAt == s.gate.decision.evaluatedAt && d.failed == s.gate.decision.failed
        && d.fingerprint == s.gate.decision.fingerprint
      else d == s.gate.decision
  }

  /** The report follows what happened, at every step of every run. */
  lemma DecisionIsReported(trace: seq<System>, events: seq<Event>, i: nat)
    requires IsRun(trace, events) && i < |events|
    ensures ReportFollows(trace[i], events[i])
  {
    RunKeepsInv(trace, events);
    assert Inv(trace[i]);
    StepReports(trace[i], events[i]);
  }

  lemma StepReports(s: System, e: Event)
    requires Inv(s) && Enabled(s, e)
    ensures ReportFollows(s, e)
  {
    match e {
      case Arrive(who, q) => ArrivalReports(s, who, q);
      case Return(who, end, failed) =>
        AppendEntry(s.log, Finished(s.inFlight[who], end, s.gate.day));
    }
  }

  lemma ArrivalReports(s: System, who: nat, q: Request)
    requires Inv(s) && who !in s.inFlight
    ensures ReportFollows(s, Arrive(who, q))
  {
    hide InFlightAfter, AllStarts;
    assert (s.log + [Started(who, q)])[..|s.log|] == s.log;
    DatedKeepsInv(s, q, 0);
    AppendEntry(Dated(s, q).log, Started(who, q));
  }

  // ---- The two lock sections ------------------------------------------------

  /** The application's fields under the lock. */
  class DecisionGate {
    var day: Option<int>
    var calls: int
    var running: bool
    var lastHash: string
    var decision: Decision

    constructor ()
      ensures State() == EMPTY_GATE
    {
      day, calls, running, lastHash, decision := None, 0, false, "", EMPTY_DECISION;
    }

    ghost function State(): Gate
      reads this
    {
      Gate(day, calls, running, lastHash, decision)
    }

    method TryReserve(q: Request) returns (verdict: Verdict)
      modifies this
      ensures (State(), verdict) == Reserve(old(State()), q)
    {
      if !q.configured || (!q.force && !q.auto) {
        return Declined;
      }
      if day != Some(DayOf(q.now)) {
        day, calls := Some(DayOf(q.now)), 0;
      }
      if running {
        return Busy;
      }
      if !q.force && lastHash == q.fingerprint && decision.evaluatedAt.Some?
         && q.now - decision.evaluatedAt.value < q.MinInterval() {
        return Suppressed;
      }
      if q.dailyBudget > 0 && calls >= q.dailyBudget && !q.force {
        decision := decision.(mode := "budget-paused", reason := "daily-budget", callsToday := calls,
                              dailyBudget := q.dailyBudget, budgetRemaining := 0);
        return Paused;
      }
      running := true;
      verdict := Admitted;
    }

    method Record(q: Request, end: Instant, failed: bool)
      modifies this
      ensures State() == Commit(old(State()), q, end, failed)
    {
      running := false;
      calls := calls + 1;
      lastHash := q.fingerprint;
      var remaining := q.dailyBudget - calls;
      if remaining < 0 {
        remaining := 0;
      }
      decision := Decision(Some(end), q.fingerprint, if q.force then "operator" else "native-auto", q.reason,
                           failed, calls, q.dailyBudget, remaining);
    }
  }
}
