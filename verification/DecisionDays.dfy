/**
 The decision budget and the calendar (desktop/typesafe_policy.go). The clock is read before the lock is taken, so
 the days can reach the lock out of order, and every change of day resets the counter. This module says for which
 orders of days the budget still holds for a calendar day.
 */
module DecisionDays {
  import opened Wrappers
  import opened DecisionAdmission

  /** Evaluations nobody forced that were counted on one day. */
  function UnforcedOnDay(log: seq<Entry>, day: int): nat {
    if log == [] then 0
    else
      var e := log[|log| - 1];
      UnforcedOnDay(log[..|log| - 1], day) + if e.Finished? && !e.request.force && e.day == Some(day) then 1 else 0
  }

  /** The days read by the arrivals that get as far as the lock, in the order in which they take it. */
  function DaysRead(events: seq<Event>): seq<int> {
    if events == [] then []
    else
      var e := events[|events| - 1];
      DaysRead(events[..|events| - 1]) + if Counts(e) then [DayOf(e.request.now)] else []
  }

  function TimesRead(ds: seq<int>, day: int): nat {
    if ds == [] then 0 else TimesRead(ds[..|ds| - 1], day) + if ds[|ds| - 1] == day then 1 else 0
  }

  /** The day is left for another one and read again. */
  ghost predicate Reentered(ds: seq<int>, day: int) {
    exists i, j, k | 0 <= i < j < k < |ds| :: ds[i] == day && ds[j] != day && ds[k] == day
  }

  lemma AppendOnDay(log: seq<Entry>, e: Entry, day: int)
    ensures UnforcedOnDay(log + [e], day) ==
            UnforcedOnDay(log, day) + if e.Finished? && !e.request.force && e.day == Some(day) then 1 else 0
  {
    assert (log + [e])[..|log|] == log;
  }

  lemma AppendDay(ds: seq<int>, d: int, day: int)
    ensures TimesRead(ds + [d], day) == TimesRead(ds, day) + if d == day then 1 else 0
    ensures Reentered(ds, day) ==> Reentered(ds + [d], day)
    ensures Reentered(ds + [d], day) ==> Reentered(ds, day) || (d == day && day in ds && ds[|ds| - 1] != day)
    ensures d == day && day in ds && ds[|ds| - 1] != day ==> Reentered(ds + [d], day)
  {
    var longer := ds + [d];
    assert longer[..|ds|] == ds;
    if Reentered(ds, day) {
      var i, j, k :| 0 <= i < j < k < |ds| && ds[i] == day && ds[j] != day && ds[k] == day;
      assert longer[i] == day && longer[j] != day && longer[k] == day;
    }
    if d == day && day in ds && ds[|ds| - 1] != day {
      var i :| 0 <= i < |ds| && ds[i] == day;
      assert longer[i] == day && longer[|ds| - 1] != day && longer[|ds|] == day;
    }
    if Reentered(longer, day) && !Reentered(ds, day) {
      var i, j, k :| 0 <= i < j < k < |longer| && longer[i] == day && longer[j] != day && longer[k] == day;
      assert ds[i] == day && ds[j] != day;
      assert k == |ds|;
      assert ds[|ds| - 1] == day ==> j < |ds| - 1;
    }
  }

  lemma {:induction false} ReadIffCounted(ds: seq<int>, day: int)
    ensures TimesRead(ds, day) > 0 <==> day in ds
  {
    if ds != [] {
      ReadIffCounted(ds[..|ds| - 1], day);
      assert ds == ds[..|ds| - 1] + [ds[|ds| - 1]];
    }
  }

  // ---- What no run exceeds --------------------------------------------------

  function LastDay(ds: seq<int>): Option<int> {
    if ds == [] then None else Some(ds[|ds| - 1])
  }

  /**
   What holds after the days `ds`: an evaluation counted on `day`, or in flight while the gate is at it, is paid
   for by an arrival that read it; and a day that was entered once is within the budget.
   */
  ghost predicate Tracks(s: System, ds: seq<int>, budget: int, day: int) {
    && s.gate.day == LastDay(ds)
    && (s.gate.running ==> ds != [])
    && UnforcedOnDay(s.log, day) + (if s.gate.running && s.gate.day == Some(day) then 1 else 0) <= TimesRead(ds, day)
    && (!Reentered(ds, day) ==>
          UnforcedOnDay(s.log, day) <= if s.gate.day == Some(day) then UnforcedSinceReset(s.log) else budget)
  }

  lemma DatedTracks(s: System, q: Request, ds: seq<int>, budget: int, day: int)
    requires Inv(s) && Within(s, budget) && Tracks(s, ds, budget, day) && budget > 0
    ensures var d, s' := DayOf(q.now), Dated(s, q);
            && Tracks(s', ds + [d], budget, day)
            && UnforcedOnDay(s'.log, day) + (if d == day then 1 else 0) <= TimesRead(ds + [d], day)
  {
    var d := DayOf(q.now);
    AppendOnDay(s.log, Reset(d), day);
    AppendEntry(s.log, Reset(d));
    AppendDay(ds, d, day);
    ReadIffCounted(ds, day);
  }

  lemma StartTracks(s: System, who: nat, q: Request, ds: seq<int>, budget: int, day: int)
    requires Tracks(s, ds, budget, day) && ds != []
    requires UnforcedOnDay(s.log, day) + (if s.gate.day == Some(day) then 1 else 0) <= TimesRead(ds, day)
    ensures Tracks(System(s.gate.(running := true), s.inFlight[who := q], s.log + [Started(who, q)]), ds, budget, day)
  {
    AppendOnDay(s.log, Started(who, q), day);
    AppendEntry(s.log, Started(who, q));
  }

  lemma FinishTracks(s: System, who: nat, end: Instant, failed: bool, ds: seq<int>, budget: int, day: int)
    requires Inv(s) && Within(s, budget) && Tracks(s, ds, budget, day) && who in s.inFlight
    ensures Tracks(Next(s, Return(who, end, failed)), ds, budget, day)
  {
    AppendOnDay(s.log, Finished(s.inFlight[who], end, s.gate.day), day);
    AppendEntry(s.log, Finished(s.inFlight[who], end, s.gate.day));
  }

  lemma StepTracks(s: System, e: Event, ds: seq<int>, budget: int, day: int)
    requires Inv(s) && Within(s, budget) && Tracks(s, ds, budget, day) && budget > 0 && Enabled(s, e)
    ensures Tracks(Next(s, e), ds + if Counts(e) then [DayOf(e.request.now)] else [], budget, day)
  {
    hide Inv, Within, Reserve, UnforcedOnDay, UnforcedSinceReset, TimesRead, Reentered;
    assert ds + [] == ds;
    match e {
      case Arrive(who, q) =>
        ArrivalCases(s, who, q);
        if Counts(e) {
          DatedTracks(s, q, ds, budget, day);
          StartTracks(Dated(s, q), who, q, ds + [DayOf(q.now)], budget, day);
        }
      case Return(who, end, failed) =>
        FinishTracks(s, who, end, failed, ds, budget, day);
    }
  }

  lemma {:induction false} RunTracks(trace: seq<System>, events: seq<Event>, budget: int, day: int)
    requires IsRun(trace, events) && BudgetWithin(events, budget) && budget > 0
    ensures Tracks(trace[|events|], DaysRead(events), budget, day)
    ensures Within(trace[|events|], budget)
  {
    hide Tracks, Inv, Within, Next, Enabled;
    RunKeepsInv(trace, events);
    RunKeepsWithin(trace, events, budget);
    StartsTracked(budget, day);
    for k := 0 to |events|
      invariant Tracks(trace[k], DaysRead(events[..k]), budget, day)
    {
      assert Inv(trace[k]) && Within(trace[k], budget);
      assert events[..k + 1][..k] == events[..k];
      StepTracks(trace[k], events[k], DaysRead(events[..k]), budget, day);
    }
    assert events[..|events|] == events && Within(trace[|events|], budget);
  }

  lemma StartsTracked(budget: int, day: int)
    requires budget > 0
    ensures Tracks(INITIAL, [], budget, day)
  {
  }

  /** Whatever positive budgets are read, a day that is not left and read again stays within the largest. */
  lemma DayReadInOneGoKeepsBudget(trace: seq<System>, events: seq<Event>, budget: int, day: int)
    requires IsRun(trace, events) && BudgetWithin(events, budget) && budget > 0 && !Reentered(DaysRead(events), day)
    ensures UnforcedOnDay(trace[|events|].log, day) <= budget
  {
    RunTracks(trace, events, budget, day);
  }

  /** And no day counts more evaluations nobody forced than arrivals that read it. */
  lemma NoMoreThanRead(trace: seq<System>, events: seq<Event>, budget: int, day: int)
    requires IsRun(trace, events) && BudgetWithin(events, budget) && budget > 0
    ensures UnforcedOnDay(trace[|events|].log, day) <= TimesRead(DaysRead(events), day)
  {
    RunTracks(trace, events, budget, day);
  }

  // ---- What some run reaches ------------------------------------------------

  /** How many arrivals in a row read the last day. */
  function Streak(ds: seq<int>): nat {
    if ds == [] then 0
    else if |ds| > 1 && ds[|ds| - 2] == ds[|ds| - 1] then Streak(ds[..|ds| - 1]) + 1
    else 1
  }

  /** The evaluations of a day if every arrival is evaluated at once, as far as the budget of its streak goes. */
  function Greedy(ds: seq<int>, budget: int, day: int): nat {
    if ds == [] then 0
    else
      Greedy(ds[..|ds| - 1], budget, day) + if ds[|ds| - 1] == day && Streak(ds) <= budget then 1 else 0
  }

  function Min(a: int, b: int): int {
    if a < b then a else b
  }

  lemma StreakOfLonger(ds: seq<int>, d: int)
    ensures Streak(ds + [d]) == if LastDay(ds) == Some(d) then Streak(ds) + 1 else 1
  {
    assert (ds + [d])[..|ds|] == ds;
  }

  lemma GreedyOfLonger(ds: seq<int>, d: int, budget: int, day: int)
    ensures Greedy(ds + [d], budget, day) ==
            Greedy(ds, budget, day) + if d == day && Streak(ds + [d]) <= budget then 1 else 0
  {
    assert (ds + [d])[..|ds|] == ds;
  }

  /** A day that is left and read again gets one evaluation past its budget, if it is read often enough for that. */
  lemma {:induction false} GreedyReaches(ds: seq<int>, budget: int, day: int)
    requires budget > 0
    ensures Greedy(ds, budget, day) >= Min(TimesRead(ds, day), if Reentered(ds, day) then budget + 1 else budget)
    ensures LastDay(ds) == Some(day) ==>
              Greedy(ds, budget, day) >= Min(Streak(ds), budget) + if Reentered(ds, day) then 1 else 0
  {
    if ds != [] {
      var before, d := ds[..|ds| - 1], ds[|ds| - 1];
      assert ds == before + [d];
      GreedyReaches(before, budget, day);
      hide Greedy, Streak, TimesRead, Reentered;
      AppendDay(before, d, day);
      StreakOfLonger(before, d);
      GreedyOfLonger(before, d, budget, day);
      ReadIffCounted(before, day);
    }
  }

  function Name(n: nat): (s: string)
    ensures |s| == n
  {
    if n == 0 then "" else Name(n - 1) + "x"
  }

  /** A request that nobody forces, reading the given day. */
  function Ask(n: nat, day: int, budget: int): Request {
    Request(true, true, false, "auto", Name(n), day * DAY, 60, budget)
  }

  /** At rest after the days `ds`, having evaluated greedily. */
  ghost predicate AtRest(s: System, ds: seq<int>, budget: int) {
    && s.inFlight == map[] && !s.gate.running
    && |s.gate.lastHash| <= |ds|
    && s.gate.day == LastDay(ds)
    && s.gate.calls == Min(Streak(ds), budget)
    && forall day :: UnforcedOnDay(s.log, day) == Greedy(ds, budget, day)
  }

  lemma OneMore(trace: seq<System>, events: seq<Event>, e: Event, budget: int)
    returns (trace': seq<System>, events': seq<Event>)
    requires IsRun(trace, events) && BudgetWithin(events, budget) && Enabled(trace[|events|], e)
    requires e.Arrive? ==> 0 < e.request.dailyBudget <= budget
    ensures IsRun(trace', events') && BudgetWithin(events', budget)
    ensures trace'[|events'|] == Next(trace[|events|], e)
    ensures DaysRead(events') == DaysRead(events) + if Counts(e) then [DayOf(e.request.now)] else []
  {
    hide Next, Enabled;
    trace', events' := trace + [Next(trace[|events|], e)], events + [e];
    assert events'[..|events|] == events;
  }

  /** What the gate does with such a request at rest: it is admitted iff the budget of its day's streak allows. */
  lemma ReserveAtRest(g: Gate, n: nat, d: int, budget: int)
    requires budget > 0 && !g.running && |g.lastHash| < n
    ensures DayOf(Ask(n, d, budget).now) == d
    ensures var verdict := Reserve(g, Ask(n, d, budget)).1;
            if g.day == Some(d) && g.calls >= budget then verdict == Paused else verdict == Admitted
  {
  }

  lemma {:induction false} DatedAtRest(s: System, q: Request, ds: seq<int>, budget: int, day: int)
    requires budget > 0 && AtRest(s, ds, budget)
    ensures UnforcedOnDay(Dated(s, q).log, day) == Greedy(ds, budget, day)
  {
    AppendOnDay(s.log, Reset(DayOf(q.now)), day);
  }

  /** A run at rest goes on by one arrival, evaluated if the budget allows. */
  lemma OneArrival(trace: seq<System>, events: seq<Event>, budget: int, d: int)
    returns (trace': seq<System>, events': seq<Event>)
    requires budget > 0 && IsRun(trace, events) && BudgetWithin(events, budget)
    requires AtRest(trace[|events|], DaysRead(events), budget)
    ensures IsRun(trace', events') && BudgetWithin(events', budget)
    ensures DaysRead(events') == DaysRead(events) + [d]
    ensures AtRest(trace'[|events'|], DaysRead(events'), budget)
  {
    hide Reserve, UnforcedOnDay, Greedy, Streak;
    var s, ds := trace[|events|], DaysRead(events);
    var q := Ask(|ds| + 1, d, budget);
    ReserveAtRest(s.gate, |ds| + 1, d, budget);
    ArrivalCases(s, 0, q);
    StreakOfLonger(ds, d);
    trace', events' := OneMore(trace, events, Arrive(0, q), budget);
    var s1 := trace'[|events'|];
    if Reserve(s.gate, q).1.Paused? {
      forall day ensures UnforcedOnDay(s1.log, day) == Greedy(ds + [d], budget, day) {
        DatedAtRest(s, q, ds, budget, day);
        GreedyOfLonger(ds, d, budget, day);
      }
    } else {
      assert s1.inFlight == map[0 := q];
      var e := Finished(q, q.now, s1.gate.day);
      trace', events' := OneMore(trace', events', Return(0, q.now, false), budget);
      var s2 := trace'[|events'|];
      assert s1.inFlight - {0} == map[];
      forall day ensures UnforcedOnDay(s2.log, day) == Greedy(ds + [d], budget, day) {
        DatedAtRest(s, q, ds, budget, day);
        AppendOnDay(Dated(s, q).log, Started(0, q), day);
        AppendOnDay(s1.log, e, day);
        GreedyOfLonger(ds, d, budget, day);
      }
    }
  }

  lemma {:induction false} GreedyRun(ds: seq<int>, budget: int) returns (trace: seq<System>, events: seq<Event>)
    requires budget > 0
    ensures IsRun(trace, events) && BudgetWithin(events, budget) && DaysRead(events) == ds
    ensures AtRest(trace[|events|], ds, budget)
  {
    if ds == [] {
      trace, events := [INITIAL], [];
    } else {
      hide AtRest, IsRun, BudgetWithin, DaysRead;
      var before, d := ds[..|ds| - 1], ds[|ds| - 1];
      assert ds == before + [d];
      var trace0, events0 := GreedyRun(before, budget);
      trace, events := OneArrival(trace0, events0, budget, d);
    }
  }

  // ---- The exact condition --------------------------------------------------

  /** Every run that reads these days, and no budget above this one, keeps the day within it. */
  ghost predicate KeepsBudget(ds: seq<int>, budget: int, day: int) {
    forall trace: seq<System>, events: seq<Event> |
      IsRun(trace, events) && BudgetWithin(events, budget) && DaysRead(events) == ds ::
      UnforcedOnDay(trace[|events|].log, day) <= budget
  }

  /**
   For every order in which days can reach the lock and every budget: all runs keep a day within the budget iff
   the day is not left and read again, or is read no more often than the budget.
   */
  lemma DailyBudgetHoldsIff(ds: seq<int>, budget: int, day: int)
    requires budget > 0
    ensures KeepsBudget(ds, budget, day) <==> !Reentered(ds, day) || TimesRead(ds, day) <= budget
  {
    hide BudgetWithin, DaysRead, Reentered, TimesRead, Next, Enabled;
    if !Reentered(ds, day) || TimesRead(ds, day) <= budget {
      forall trace: seq<System>, events: seq<Event> |
        IsRun(trace, events) && BudgetWithin(events, budget) && DaysRead(events) == ds
        ensures UnforcedOnDay(trace[|events|].log, day) <= budget
      {
        RunTracks(trace, events, budget, day);
        NoMoreThanRead(trace, events, budget, day);
      }
    } else {
      var trace, events := GreedyRun(ds, budget);
      GreedyReaches(ds, budget, day);
    }
  }
}
