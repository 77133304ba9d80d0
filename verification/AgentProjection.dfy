/**
 The projection of agent heartbeats, events and source observations, in whatever order and however often the
 network delivers them.
 */
module AgentProjection {
  import opened Wrappers
  import opened Text
  import opened Sequences
  import opened Sorting

  // Instants are nanoseconds; zero is the zero time, "not given".
  type Instant = int
  const SECOND: int := 1_000_000_000

  const SESSION_LIMIT: nat := 120
  const EVENT_LIMIT: nat := 250
  const FUTURE_TOLERANCE: int := 300 * SECOND

  /** A session's state: text as received, or one of the projection's own states. */
  datatype AgentState = Raw(text: string) | Running | Waiting | Blocked | Idle | Stale | Offline | Unknown

  /** `detail` stands for the fields the projection only carries along. */
  datatype Session = Session(
    id: string, sequence: nat, name: string, kind: string, provider: string, source: string, state: AgentState,
    progress: real, detail: string, startedAt: Instant, lastHeartbeat: Instant)

  datatype AgentEvent = AgentEvent(id: string, timestamp: Instant, source: string, body: string)

  datatype SourceStatus = SourceStatus(id: string, lastObservedAt: Instant, status: string)

  datatype Counts = Counts(active: nat, running: nat, waiting: nat, blocked: nat, stale: nat)

  datatype Snapshot = Snapshot(
    observedAt: Instant, sessions: seq<Session>, events: seq<AgentEvent>, sources: seq<SourceStatus>, counts: Counts)

  const EMPTY := Snapshot(0, [], [], [], Counts(0, 0, 0, 0, 0))

  function NormalizeState(v: AgentState): AgentState {
    if !v.Raw? then v
    else
      var s := ToLower(TrimSpace(v.text));
      if s in {"running", "working", "executing", "active"} then Running
      else if s in {"waiting", "queued", "ready"} then Waiting
      else if s in {"blocked", "needs_you", "needs-you", "error", "failed"} then Blocked
      else if s in {"idle", "paused", "done", "completed", "succeeded"} then Idle
      else if s == "stale" then Stale
      else if s == "offline" then Offline
      else Unknown
  }

  // ---- Summaries ------------------------------------------------------------

  function Refresh(x: Session, staleAfter: int, now: Instant): Session {
    var state := NormalizeState(x.state);
    x.(state := if x.lastHeartbeat != 0 && now - x.lastHeartbeat > staleAfter && !state.Offline? then Stale else state)
  }

  function RefreshAll(xs: seq<Session>, staleAfter: int, now: Instant): (r: seq<Session>)
    ensures |r| == |xs|
    ensures forall i | 0 <= i < |xs| :: r[i] == Refresh(xs[i], staleAfter, now)
  {
    seq(|xs|, i requires 0 <= i < |xs| => Refresh(xs[i], staleAfter, now))
  }

  function Count(xs: seq<Session>, states: set<AgentState>): nat {
    if xs == [] then 0 else Count(xs[..|xs| - 1], states) + if xs[|xs| - 1].state in states then 1 else 0
  }

  function CountAll(xs: seq<Session>): Counts {
    Counts(Count(xs, {Running, Waiting, Blocked}), Count(xs, {Running}), Count(xs, {Waiting}),
           Count(xs, {Blocked}), Count(xs, {Stale, Offline}))
  }

  /** The rank table of the session sort; a state it lacks, like `unknown`, ranks with `blocked`. */
  function Rank(state: AgentState): nat {
    match state
    case Running => 1
    case Waiting => 2
    case Idle => 3
    case Stale => 4
    case Offline => 5
    case _ => 0
  }

  function SessionBefore(x: Session, y: Session): bool {
    if x.state != y.state then Rank(x.state) < Rank(y.state) else x.lastHeartbeat > y.lastHeartbeat
  }

  function Newer(e: AgentEvent, f: AgentEvent): bool {
    e.timestamp > f.timestamp
  }

  function Take<T>(xs: seq<T>, n: nat): seq<T> {
    if |xs| > n then xs[..n] else xs
  }

  function Summarized(s: Snapshot, staleAfter: int, now: Instant): Snapshot {
    var sessions := RefreshAll(s.sessions, staleAfter, now);
    Snapshot(now, Take(SortBy(SessionBefore, sessions), SESSION_LIMIT), Take(SortBy(Newer, s.events), EVENT_LIMIT),
             s.sources, CountAll(sessions))
  }

  // ---- Deliveries -----------------------------------------------------------

  function Prepared(x: Session, now: Instant): Session {
    Session(x.id, x.sequence, if TrimSpace(x.name) == "" then x.id else x.name,
            if x.kind == "" then "agent" else x.kind,
            if x.provider == "" then "Agent Bridge" else x.provider,
            if x.source == "" then "agent heartbeat" else x.source,
            NormalizeState(x.state),
            if x.progress < 0.0 then 0.0 else if x.progress > 1.0 then 1.0 else x.progress,
            x.detail, x.startedAt, if x.lastHeartbeat == 0 then now else x.lastHeartbeat)
  }

  function FindSession(xs: seq<Session>, id: string): (r: Option<nat>)
    ensures r.Some? ==> r.value < |xs| && xs[r.value].id == id && forall j | 0 <= j < r.value :: xs[j].id != id
    ensures r.None? ==> forall i | 0 <= i < |xs| :: xs[i].id != id
  {
    IndexWhere(xs, (x: Session) => x.id == id)
  }

  /** An ordered agent's projection takes no unordered, repeated or late heartbeat. */
  predicate Outdated(stored: Session, x: Session) {
    stored.sequence > 0 && (x.sequence == 0 || x.sequence <= stored.sequence)
  }

  function Upserted(s: Snapshot, x0: Session, staleAfter: int, now: Instant): Snapshot {
    if TrimSpace(x0.id) == "" then s
    else
      var x := Prepared(x0, now);
      match FindSession(s.sessions, x.id)
      case None => Summarized(s.(sessions := s.sessions + [x]), staleAfter, now)
      case Some(i) =>
        if Outdated(s.sessions[i], x) then s
        else
          var y := if x.startedAt == 0 then x.(startedAt := s.sessions[i].startedAt) else x;
          Summarized(s.(sessions := s.sessions[i := y]), staleAfter, now)
  }

  /** The event as it is stored; the identifier of an event without one is a digest of it. */
  function PreparedEvent(e: AgentEvent, digest: AgentEvent -> string, now: Instant): AgentEvent {
    var e1 := if e.timestamp == 0 then e.(timestamp := now) else e;
    var e2 := if e1.source == "" then e1.(source := "Agent Bridge") else e1;
    if e2.id == "" then e2.(id := digest(e2)) else e2
  }

  predicate TooFarAhead(e: AgentEvent, now: Instant) {
    e.timestamp > now + FUTURE_TOLERANCE
  }

  function EventAdded(s: Snapshot, e0: AgentEvent, digest: AgentEvent -> string, staleAfter: int, now: Instant)
    : Snapshot
  {
    var e := PreparedEvent(e0, digest, now);
    if TooFarAhead(e, now) then s
    else if Kept(s.events, e.id) then s
    else Summarized(s.(events := s.events + [e]), staleAfter, now)
  }

  function FindSource(xs: seq<SourceStatus>, id: string): (r: Option<nat>)
    ensures r.Some? ==> r.value < |xs| && xs[r.value].id == id && forall j | 0 <= j < r.value :: xs[j].id != id
    ensures r.None? ==> forall i | 0 <= i < |xs| :: xs[i].id != id
  {
    IndexWhere(xs, (x: SourceStatus) => x.id == id)
  }

  function SourceUpdated(s: Snapshot, x: SourceStatus, staleAfter: int, now: Instant): Snapshot {
    match FindSource(s.sources, x.id)
    case None => Summarized(s.(sources := s.sources + [x]), staleAfter, now)
    case Some(i) =>
      var last := s.sources[i].lastObservedAt;
      if last != 0 && x.lastObservedAt != 0 && x.lastObservedAt < last then s
      else Summarized(s.(sources := s.sources[i := x]), staleAfter, now)
  }

  datatype Delivery =
    | Heartbeat(session: Session, staleAfter: int, now: Instant)
    | Publish(event: AgentEvent, staleAfter: int, now: Instant)
    | Observe(source: SourceStatus, staleAfter: int, now: Instant)

  function Deliver(s: Snapshot, d: Delivery, digest: AgentEvent -> string): Snapshot {
    match d
    case Heartbeat(x, stale, now) => Upserted(s, x, stale, now)
    case Publish(e, stale, now) => EventAdded(s, e, digest, stale, now)
    case Observe(x, stale, now) => SourceUpdated(s, x, stale, now)
  }

  function DeliverAll(ds: seq<Delivery>, digest: AgentEvent -> string): Snapshot {
    if ds == [] then EMPTY else Deliver(DeliverAll(ds[..|ds| - 1], digest), ds[|ds| - 1], digest)
  }

  // ---- Heartbeat convergence ------------------------------------------------

  /** A session's identity apart from when it started, was last heard and whether it has gone stale. */
  function Payload(x: Session): Session {
    x.(startedAt := 0, lastHeartbeat := 0, state := Unknown)
  }

  predicate IsBeat(d: Delivery, id: string) {
    d.Heartbeat? && TrimSpace(d.session.id) != "" && d.session.id == id
  }

  /** A heartbeat takes the place of one without a sequence, or with a smaller one. */
  predicate Supersedes(sequence: nat, earlier: nat) {
    earlier == 0 || sequence > earlier
  }

  /**
   The heartbeat of an agent that should win, as prepared for storage: the one with the greatest sequence, and as
   long as none has a sequence the last. A start it does not name is the one known before.
   */
  function Latest(ds: seq<Delivery>, id: string): Option<Session> {
    if ds == [] then None
    else
      var d, earlier := ds[|ds| - 1], Latest(ds[..|ds| - 1], id);
      if IsBeat(d, id) && (earlier.None? || Supersedes(d.session.sequence, earlier.value.sequence))
      then Some(Entered(d, earlier))
      else earlier
  }

  function Entered(d: Delivery, earlier: Option<Session>): Session
    requires d.Heartbeat?
  {
    var x := Prepared(d.session, d.now);
    if x.startedAt == 0 && earlier.Some? then x.(startedAt := earlier.value.startedAt) else x
  }

  /** The agents heard from. */
  function Agents(ds: seq<Delivery>): set<string> {
    set i | 0 <= i < |ds| && ds[i].Heartbeat? && TrimSpace(ds[i].session.id) != "" :: ds[i].session.id
  }

  /** Equal, save perhaps in when they started. */
  predicate SameButStart(y: Session, x: Session) {
    y == x.(startedAt := y.startedAt)
  }

  /** What is stored for an agent, given its latest heartbeat: just that, save that it may have gone stale. */
  predicate Carries(y: Session, x: Session) {
    y == x.(state := y.state) && (y.state == x.state || y.state.Stale?)
  }

  /** No two entries share an agent. */
  ghost predicate OneEach(xs: seq<Session>) {
    && (forall x, y | x in xs && y in xs && x.id == y.id :: x == y)
    && (forall x | x in xs :: multiset(xs)[x] == 1)
  }

  ghost predicate Distinct(xs: seq<Session>) {
    forall i, j | 0 <= i < j < |xs| :: xs[i].id != xs[j].id
  }

  predicate Faithful(y: Session, ds: seq<Delivery>) {
    Latest(ds, y.id).Some? && Carries(y, Latest(ds, y.id).value)
  }

  /**
   The delivery that entered an agent into the projection: the last one before which it was not there. What was
   delivered before it has been forgotten, if there was anything, as the agent had been dropped.
   */
  function Since(ds: seq<Delivery>, digest: AgentEvent -> string, id: string): (r: nat)
    ensures r <= |ds| && (ds != [] ==> r < |ds|)
  {
    if ds == [] then 0
    else
      var earlier := ds[..|ds| - 1];
      if FindSession(DeliverAll(earlier, digest).sessions, id).Some? && earlier != [] then Since(earlier, digest, id)
      else |ds| - 1
  }

  /** Each entry carries the latest of what was heard from its agent, and no two share an agent. */
  ghost predicate Tells(xs: seq<Session>, heard: string -> seq<Delivery>) {
    Distinct(xs) && forall i | 0 <= i < |xs| :: Faithful(xs[i], heard(xs[i].id))
  }

  /** Every agent that reported is there once, and each entry carries its agent's latest heartbeat. */
  ghost predicate Converged(xs: seq<Session>, ds: seq<Delivery>) {
    && Tells(xs, id => ds)
    && (forall id | id in Agents(ds) :: FindSession(xs, id).Some?)
  }

  /** Refreshing keeps what an entry carries, and its agent. */
  lemma RefreshCarries(y: Session, x: Session, staleAfter: int, now: Instant)
    requires Carries(y, x) && !x.state.Raw?
    ensures Carries(Refresh(y, staleAfter, now), x)
  {
  }

  lemma MultiplicityAt<T>(xs: seq<T>, i: nat, j: nat)
    requires i < j < |xs| && xs[i] == xs[j]
    ensures multiset(xs)[xs[i]] >= 2
  {
    assert xs == xs[..j] + xs[j..];
    assert xs[i] in xs[..j] && xs[j] in xs[j..];
    assert multiset(xs) == multiset(xs[..j]) + multiset(xs[j..]);
  }

  /** `OneEach` in terms of positions. */
  lemma {:induction false} OneEachByIndex(xs: seq<Session>)
    ensures OneEach(xs) <==> Distinct(xs)
  {
    if OneEach(xs) {
      forall i, j | 0 <= i < j < |xs|
        ensures xs[i].id != xs[j].id
      {
        if xs[i].id == xs[j].id {
          assert xs[i] == xs[j];
          MultiplicityAt(xs, i, j);
        }
      }
    }
    if Distinct(xs) {
      forall x | x in xs
        ensures multiset(xs)[x] == 1
      {
        OccursOnce(xs, x);
      }
    }
  }

  lemma {:induction false} OccursOnce(xs: seq<Session>, x: Session)
    requires Distinct(xs)
    ensures multiset(xs)[x] == if x in xs then 1 else 0
  {
    if xs != [] {
      assert xs == [xs[0]] + xs[1..];
      assert multiset(xs) == multiset([xs[0]]) + multiset(xs[1..]);
      OccursOnce(xs[1..], x);
      assert x in xs[1..] ==> x != xs[0];
    }
  }

  function Ids(xs: seq<Session>): set<string> {
    set x | x in xs :: x.id
  }

  lemma FoundIffListed(xs: seq<Session>, id: string)
    ensures FindSession(xs, id).Some? <==> id in Ids(xs)
  {
    if FindSession(xs, id).Some? {
      assert xs[FindSession(xs, id).value] in xs;
    }
  }

  lemma IdsOfLonger(xs: seq<Session>, x: Session)
    ensures Ids(xs + [x]) == Ids(xs) + {x.id}
  {
    assert x in xs + [x] && forall y :: y in xs ==> y in xs + [x];
  }

  lemma {:induction false} FewIds(xs: seq<Session>)
    ensures |Ids(xs)| <= |xs|
    ensures Distinct(xs) ==> |Ids(xs)| == |xs|
  {
    if xs != [] {
      var rest, last := xs[..|xs| - 1], xs[|xs| - 1];
      FewIds(rest);
      assert xs == rest + [last];
      IdsOfLonger(rest, last);
      assert Distinct(xs) ==> last.id !in Ids(rest);
    }
  }

  lemma SetSizeMonotone<T>(a: set<T>, b: set<T>)
    requires a <= b
    ensures |a| <= |b|
  {
    assert b == a + (b - a);
    assert |b| == |a| + |b - a|;
  }

  lemma RefreshTells(xs: seq<Session>, heard: string -> seq<Delivery>, staleAfter: int, now: Instant)
    requires Tells(xs, heard)
    ensures Tells(RefreshAll(xs, staleAfter, now), heard)
  {
    hide Refresh;
    forall i | 0 <= i < |xs|
      ensures Refresh(xs[i], staleAfter, now).id == xs[i].id
      ensures Faithful(Refresh(xs[i], staleAfter, now), heard(xs[i].id))
    {
      assert Faithful(xs[i], heard(xs[i].id));
      LatestIsPrepared(heard(xs[i].id), xs[i].id);
      RefreshCarries(xs[i], Latest(heard(xs[i].id), xs[i].id).value, staleAfter, now);
      RefreshNames(xs[i], staleAfter, now);
    }
  }

  lemma RefreshNames(x: Session, staleAfter: int, now: Instant)
    ensures Refresh(x, staleAfter, now).id == x.id
  {
  }

  lemma PermutationTells(ys: seq<Session>, zs: seq<Session>, heard: string -> seq<Delivery>)
    requires Tells(ys, heard) && multiset(ys) == multiset(zs)
    ensures Tells(zs, heard)
  {
    OneEachByIndex(ys);
    OneEachByIndex(zs);
    assert forall z :: z in zs <==> z in multiset(zs);
    assert forall z :: z in ys <==> z in multiset(ys);
    forall i | 0 <= i < |zs|
      ensures Faithful(zs[i], heard(zs[i].id))
    {
      assert zs[i] in ys;
    }
  }

  /** Refreshing, sorting in any order and truncation leave what is listed true. */
  lemma SummaryTells(xs: seq<Session>, heard: string -> seq<Delivery>, staleAfter: int, now: Instant)
    requires Tells(xs, heard)
    ensures Tells(Take(SortBy(SessionBefore, RefreshAll(xs, staleAfter, now)), SESSION_LIMIT), heard)
  {
    hide Faithful;
    var ys := RefreshAll(xs, staleAfter, now);
    RefreshTells(xs, heard, staleAfter, now);
    SortPermutes(SessionBefore, ys);
    PermutationTells(ys, SortBy(SessionBefore, ys), heard);
  }

  /** A summary lists nobody new, and drops nobody while there is room. */
  lemma SummaryLists(xs: seq<Session>, staleAfter: int, now: Instant)
    ensures var zs := Take(SortBy(SessionBefore, RefreshAll(xs, staleAfter, now)), SESSION_LIMIT);
            Ids(zs) <= Ids(xs) && (|xs| <= SESSION_LIMIT ==> Ids(zs) == Ids(xs))
  {
    var ys := RefreshAll(xs, staleAfter, now);
    var sorted := SortBy(SessionBefore, ys);
    SortPermutes(SessionBefore, ys);
    assert forall z :: z in sorted <==> z in multiset(ys);
    assert forall i | 0 <= i < |xs| :: ys[i].id == xs[i].id;
    forall id | id in Ids(xs)
      ensures id in Ids(ys)
    {
      var i :| 0 <= i < |xs| && xs[i].id == id;
      assert ys[i] in ys;
    }
  }

  lemma LatestOfLonger(ds: seq<Delivery>, d: Delivery, id: string)
    ensures Latest(ds + [d], id) ==
            if IsBeat(d, id) && (Latest(ds, id).None? || Supersedes(d.session.sequence, Latest(ds, id).value.sequence))
            then Some(Entered(d, Latest(ds, id))) else Latest(ds, id)
  {
    assert (ds + [d])[..|ds|] == ds;
  }

  /** What has been heard of an agent while it was there, with one more delivery. */
  function HeardNext(xs: seq<Session>, heard: string -> seq<Delivery>, d: Delivery, id: string): seq<Delivery> {
    (if FindSession(xs, id).Some? then heard(id) else []) + [d]
  }

  /** `next` is what has been heard after one more delivery. */
  ghost predicate Extends(next: string -> seq<Delivery>, xs: seq<Session>, heard: string -> seq<Delivery>, d: Delivery)
  {
    forall id :: next(id) == HeardNext(xs, heard, d, id)
  }

  /** An agent's new entry. */
  lemma AppendTells(xs: seq<Session>, heard: string -> seq<Delivery>, next: string -> seq<Delivery>,
                    d: Delivery, y: Session)
    requires Tells(xs, heard) && Extends(next, xs, heard, d) && IsBeat(d, y.id) && FindSession(xs, y.id).None?
    requires Carries(y, Prepared(d.session, d.now))
    ensures Tells(xs + [y], next)
  {
    LatestOfLonger([], d, y.id);
    forall i | 0 <= i < |xs|
      ensures Faithful(xs[i], next(xs[i].id))
    {
      assert Faithful(xs[i], heard(xs[i].id));
      LatestOfLonger(heard(xs[i].id), d, xs[i].id);
    }
  }

  /** A newer heartbeat replaces an agent's entry. */
  lemma ReplaceTells(xs: seq<Session>, heard: string -> seq<Delivery>, next: string -> seq<Delivery>,
                     d: Delivery, y: Session, i: nat)
    requires Tells(xs, heard) && Extends(next, xs, heard, d) && i < |xs| && xs[i].id == y.id && IsBeat(d, y.id)
    requires y == Entered(d, Some(xs[i])) && Supersedes(d.session.sequence, xs[i].sequence)
    ensures Tells(xs[i := y], next)
  {
    assert Payload(xs[i]).sequence == Payload(Latest(heard(y.id), y.id).value).sequence;
    forall k | 0 <= k < |xs|
      ensures Faithful(xs[i := y][k], next(xs[k].id))
    {
      assert Faithful(xs[k], heard(xs[k].id));
      LatestOfLonger(heard(xs[k].id), d, xs[k].id);
    }
  }

  /** A delivery that is no newer heartbeat of anyone listed changes nobody's latest. */
  lemma LateTells(xs: seq<Session>, heard: string -> seq<Delivery>, next: string -> seq<Delivery>, d: Delivery)
    requires Tells(xs, heard) && Extends(next, xs, heard, d)
    requires forall i | 0 <= i < |xs| && IsBeat(d, xs[i].id) :: !Supersedes(d.session.sequence, xs[i].sequence)
    ensures Tells(xs, next)
  {
    forall i | 0 <= i < |xs|
      ensures Faithful(xs[i], next(xs[i].id))
    {
      assert Faithful(xs[i], heard(xs[i].id));
      assert Payload(xs[i]).sequence == Payload(Latest(heard(xs[i].id), xs[i].id).value).sequence;
      LatestOfLonger(heard(xs[i].id), d, xs[i].id);
    }
  }

  lemma DeliveryTells(s: Snapshot, heard: string -> seq<Delivery>, next: string -> seq<Delivery>, d: Delivery,
                      digest: AgentEvent -> string)
    requires Tells(s.sessions, heard) && Extends(next, s.sessions, heard, d)
    ensures Tells(Deliver(s, d, digest).sessions, next)
  {
    hide RefreshAll, SortBy, CountAll, TrimSpace, Take, Tells, Extends, PreparedEvent;
    var xs := s.sessions;
    if d.Heartbeat? && TrimSpace(d.session.id) != "" {
      var x := Prepared(d.session, d.now);
      var found := FindSession(xs, d.session.id);
      if found.None? {
        AppendTells(xs, heard, next, d, x);
        SummaryTells(xs + [x], next, d.staleAfter, d.now);
      } else if Outdated(xs[found.value], x) {
        OnlyEntry(xs, heard, found.value);
        LateTells(xs, heard, next, d);
      } else {
        var y := if x.startedAt == 0 then x.(startedAt := xs[found.value].startedAt) else x;
        ReplaceTells(xs, heard, next, d, y, found.value);
        SummaryTells(xs[found.value := y], next, d.staleAfter, d.now);
      }
    } else {
      LateTells(xs, heard, next, d);
      SummaryTells(xs, next, d.staleAfter, d.now);
    }
  }

  lemma OnlyEntry(xs: seq<Session>, heard: string -> seq<Delivery>, i: nat)
    requires Tells(xs, heard) && i < |xs|
    ensures forall j | 0 <= j < |xs| && xs[j].id == xs[i].id :: j == i
  {
  }

  /** The agent that reports by a delivery, if any. */
  function Reporter(d: Delivery): set<string> {
    if d.Heartbeat? && TrimSpace(d.session.id) != "" then {d.session.id} else {}
  }

  lemma AgentsOfLonger(ds: seq<Delivery>, d: Delivery)
    ensures Agents(ds + [d]) == Agents(ds) + Reporter(d)
  {
    var longer := ds + [d];
    assert longer[|ds|] == d;
    assert forall i | 0 <= i < |ds| :: longer[i] == ds[i];
  }

  lemma ReportedIffLatest(ds: seq<Delivery>, id: string)
    ensures Latest(ds, id).Some? <==> id in Agents(ds)
  {
    LatestIsPrepared(ds, id);
    if id in Agents(ds) {
      var i :| 0 <= i < |ds| && ds[i].Heartbeat? && TrimSpace(ds[i].session.id) != "" && ds[i].session.id == id;
      assert IsBeat(ds[i], id);
    }
  }

  /** A delivery lists at most its reporter, and drops nobody while there is room. */
  lemma DeliveryLists(s: Snapshot, d: Delivery, digest: AgentEvent -> string)
    requires Distinct(s.sessions)
    ensures var ids, heard := Ids(Deliver(s, d, digest).sessions), Ids(s.sessions) + Reporter(d);
            ids <= heard && (|heard| <= SESSION_LIMIT ==> ids == heard)
  {
    hide RefreshAll, SortBy, CountAll, TrimSpace, Take, PreparedEvent, Ids;
    var xs, heard := s.sessions, Ids(s.sessions) + Reporter(d);
    FewIds(xs);
    SetSizeMonotone(Ids(xs), heard);
    if d.Heartbeat? && TrimSpace(d.session.id) != "" {
      var x := Prepared(d.session, d.now);
      var found := FindSession(xs, d.session.id);
      FoundIffListed(xs, d.session.id);
      if found.None? {
        IdsOfLonger(xs, x);
        FewIds(xs + [x]);
        SummaryLists(xs + [x], d.staleAfter, d.now);
      } else if !Outdated(xs[found.value], x) {
        var y := if x.startedAt == 0 then x.(startedAt := xs[found.value].startedAt) else x;
        ReplacementLists(xs, found.value, y);
        SummaryLists(xs[found.value := y], d.staleAfter, d.now);
      }
    } else {
      SummaryLists(xs, d.staleAfter, d.now);
    }
  }

  lemma ReplacementLists(xs: seq<Session>, i: nat, y: Session)
    requires i < |xs| && xs[i].id == y.id
    ensures Ids(xs[i := y]) == Ids(xs)
  {
    var ys := xs[i := y];
    forall id | id in Ids(xs)
      ensures id in Ids(ys)
    {
      var k :| 0 <= k < |xs| && xs[k].id == id;
      assert ys[k] in ys && ys[k].id == id;
    }
    forall id | id in Ids(ys)
      ensures id in Ids(xs)
    {
      var k :| 0 <= k < |ys| && ys[k].id == id;
      assert xs[k] in xs && xs[k].id == id;
    }
  }

  /** What has been delivered since each agent was entered. */
  function HeardSince(ds: seq<Delivery>, digest: AgentEvent -> string): string -> seq<Delivery> {
    id => ds[Since(ds, digest, id)..]
  }

  lemma SinceOfLonger(ds: seq<Delivery>, d: Delivery, digest: AgentEvent -> string)
    ensures Extends(HeardSince(ds + [d], digest), DeliverAll(ds, digest).sessions, HeardSince(ds, digest), d)
  {
    hide Deliver;
    assert (ds + [d])[..|ds|] == ds;
    assert ds == [] ==> DeliverAll(ds, digest).sessions == [];
  }

  lemma StepTells(ds: seq<Delivery>, d: Delivery, digest: AgentEvent -> string)
    requires Tells(DeliverAll(ds, digest).sessions, HeardSince(ds, digest))
    ensures Tells(DeliverAll(ds + [d], digest).sessions, HeardSince(ds + [d], digest))
  {
    hide Deliver, Tells, Extends, HeardSince;
    assert (ds + [d])[..|ds|] == ds;
    SinceOfLonger(ds, d, digest);
    DeliveryTells(DeliverAll(ds, digest), HeardSince(ds, digest), HeardSince(ds + [d], digest), d, digest);
  }

  lemma NothingTells(digest: AgentEvent -> string)
    ensures Tells(DeliverAll([], digest).sessions, HeardSince([], digest))
  {
  }

  lemma {:induction false} RunTells(ds: seq<Delivery>, digest: AgentEvent -> string)
    ensures Tells(DeliverAll(ds, digest).sessions, HeardSince(ds, digest))
  {
    hide DeliverAll, Tells, HeardSince;
    if ds == [] {
      NothingTells(digest);
    } else {
      var earlier, d := ds[..|ds| - 1], ds[|ds| - 1];
      assert ds == earlier + [d];
      RunTells(earlier, digest);
      StepTells(earlier, d, digest);
    }
  }

  /**
   An entry as its heartbeat reported it: blanks are filled in, progress is kept within bounds, and everything else
   is as it was sent.
   */
  predicate Reported(y: Session, x: Session, now: Instant) {
    && y.id == x.id && y.sequence == x.sequence && y.detail == x.detail
    && y.name == (if Blank(x.name) then x.id else x.name)
    && (x.kind != "" ==> y.kind == x.kind) && (x.kind == "" ==> y.kind == "agent")
    && (x.provider != "" ==> y.provider == x.provider) && (x.provider == "" ==> y.provider == "Agent Bridge")
    && (x.source != "" ==> y.source == x.source) && (x.source == "" ==> y.source == "agent heartbeat")
    && (0.0 <= x.progress <= 1.0 ==> y.progress == x.progress)
    && (x.progress < 0.0 ==> y.progress == 0.0) && (x.progress > 1.0 ==> y.progress == 1.0)
    && (x.startedAt != 0 ==> y.startedAt == x.startedAt)
    && y.lastHeartbeat == (if x.lastHeartbeat != 0 then x.lastHeartbeat else now)
    && (y.state == NormalizeState(x.state) || y.state.Stale?)
  }

  /**
   Heartbeat convergence. For every delivery order, with any duplicates, any events and source observations in
   between and however many agents, no agent is listed twice, and each entry carries the heartbeat with the greatest
   sequence among those delivered since its agent was entered, as it was reported.
   */
  lemma {:induction false} HeartbeatsConverge(ds: seq<Delivery>, digest: AgentEvent -> string)
    ensures var xs := DeliverAll(ds, digest).sessions;
            Distinct(xs) && forall i | 0 <= i < |xs| :: Faithful(xs[i], ds[Since(ds, digest, xs[i].id)..])
    ensures forall x | x in DeliverAll(ds, digest).sessions ::
              exists i :: 0 <= i < |ds| && IsBeat(ds[i], x.id) && Reported(x, ds[i].session, ds[i].now)
  {
    RunTells(ds, digest);
    hide Reported, DeliverAll, Since, Latest, Faithful, Tells;
    forall x | x in DeliverAll(ds, digest).sessions
      ensures exists i :: 0 <= i < |ds| && IsBeat(ds[i], x.id) && Reported(x, ds[i].session, ds[i].now)
    {
      TellsFaithfully(DeliverAll(ds, digest).sessions, HeardSince(ds, digest), x);
      var k := Since(ds, digest, x.id);
      var i := FaithfulIsReported(x, ds[k..]);
      assert ds[k..][i] == ds[k + i];
    }
    TellsAll(DeliverAll(ds, digest).sessions, HeardSince(ds, digest));
  }

  lemma TellsFaithfully(xs: seq<Session>, heard: string -> seq<Delivery>, x: Session)
    requires Tells(xs, heard) && x in xs
    ensures Faithful(x, heard(x.id))
  {
  }

  lemma TellsAll(xs: seq<Session>, heard: string -> seq<Delivery>)
    requires Tells(xs, heard)
    ensures Distinct(xs) && forall i | 0 <= i < |xs| :: Faithful(xs[i], heard(xs[i].id))
  {
  }

  lemma FaithfulIsReported(y: Session, ds: seq<Delivery>) returns (i: nat)
    requires Faithful(y, ds)
    ensures i < |ds| && IsBeat(ds[i], y.id) && Reported(y, ds[i].session, ds[i].now)
  {
    hide Reported;
    LatestIsPrepared(ds, y.id);
    i :| 0 <= i < |ds| && IsBeat(ds[i], y.id)
         && SameButStart(Latest(ds, y.id).value, Prepared(ds[i].session, ds[i].now))
         && (ds[i].session.startedAt != 0 ==> Latest(ds, y.id).value.startedAt == ds[i].session.startedAt);
    PreparedIsReported(y, Latest(ds, y.id).value, ds[i]);
  }

  lemma PreparedIsReported(y: Session, x: Session, d: Delivery)
    requires IsBeat(d, x.id) && Carries(y, x) && SameButStart(x, Prepared(d.session, d.now))
    requires d.session.startedAt != 0 ==> x.startedAt == d.session.startedAt
    ensures Reported(y, d.session, d.now)
  {
    hide TrimSpace, NormalizeState;
    BlankIff(d.session.name);
  }

  /** Whenever the agent has reported, it is listed. */
  ghost predicate Stays(ds: seq<Delivery>, digest: AgentEvent -> string, id: string) {
    forall k | 0 <= k <= |ds| && id in Agents(ds[..k]) :: FindSession(DeliverAll(ds[..k], digest).sessions, id).Some?
  }

  lemma {:induction false} LatestSkips(before: seq<Delivery>, after: seq<Delivery>, id: string)
    requires id !in Agents(before)
    ensures Latest(before + after, id) == Latest(after, id)
  {
    if after == [] {
      assert before + after == before;
      ReportedIffLatest(before, id);
    } else {
      var rest, d := after[..|after| - 1], after[|after| - 1];
      assert before + after == before + rest + [d] && after == rest + [d];
      LatestSkips(before, rest, id);
      LatestOfLonger(before + rest, d, id);
      LatestOfLonger(rest, d, id);
    }
  }

  /** Before its entry an agent was not listed. */
  lemma {:induction false} AbsentAtEntry(ds: seq<Delivery>, digest: AgentEvent -> string, id: string)
    ensures FindSession(DeliverAll(ds[..Since(ds, digest, id)], digest).sessions, id).None?
  {
    if ds != [] {
      var earlier := ds[..|ds| - 1];
      if FindSession(DeliverAll(earlier, digest).sessions, id).Some? && earlier != [] {
        AbsentAtEntry(earlier, digest, id);
        assert ds[..Since(ds, digest, id)] == earlier[..Since(ds, digest, id)];
      } else {
        assert earlier == [] ==> DeliverAll(earlier, digest).sessions == [];
      }
    }
  }

  /** For an agent that is never dropped nothing has been forgotten. */
  lemma NothingForgotten(ds: seq<Delivery>, digest: AgentEvent -> string, id: string)
    requires Stays(ds, digest, id)
    ensures Latest(ds[Since(ds, digest, id)..], id) == Latest(ds, id)
  {
    hide Latest, Agents, Since, DeliverAll, FindSession;
    var k := Since(ds, digest, id);
    AbsentAtEntry(ds, digest, id);
    LatestSkips(ds[..k], ds[k..], id);
    assert ds == ds[..k] + ds[k..];
  }

  /**
   An agent that is never dropped ends up listed exactly once, with the payload of the greatest sequence it ever
   reported, whatever happens to others.
   */
  lemma {:induction false} StayingAgentConverges(ds: seq<Delivery>, digest: AgentEvent -> string, id: string)
    requires Stays(ds, digest, id)
    ensures var xs := DeliverAll(ds, digest).sessions;
            && Distinct(xs)
            && (FindSession(xs, id).Some? <==> id in Agents(ds))
            && (FindSession(xs, id).Some? ==> Faithful(xs[FindSession(xs, id).value], ds))
  {
    hide Latest, Agents, Since, DeliverAll;
    HeartbeatsConverge(ds, digest);
    NothingForgotten(ds, digest, id);
    ReportedIffLatest(ds, id);
    assert ds[..|ds|] == ds;
  }

  /** While at most 120 agents have reported, all that have are listed. */
  lemma {:induction false} ListedWhileRoom(ds: seq<Delivery>, digest: AgentEvent -> string)
    ensures Ids(DeliverAll(ds, digest).sessions) <= Agents(ds)
    ensures |Agents(ds)| <= SESSION_LIMIT ==> Ids(DeliverAll(ds, digest).sessions) == Agents(ds)
  {
    if ds != [] {
      hide Deliver, Ids, Agents, Reporter, Distinct, Faithful;
      var earlier, d := ds[..|ds| - 1], ds[|ds| - 1];
      assert ds == earlier + [d];
      AgentsOfLonger(earlier, d);
      SetSizeMonotone(Agents(earlier), Agents(ds));
      ListedWhileRoom(earlier, digest);
      assert Distinct(DeliverAll(earlier, digest).sessions) by {
        HeartbeatsConverge(earlier, digest);
      }
      DeliveryLists(DeliverAll(earlier, digest), d, digest);
    }
  }

  lemma AgentsOfPrefix(ds: seq<Delivery>, k: nat)
    requires k <= |ds|
    ensures Agents(ds[..k]) <= Agents(ds)
  {
    assert forall i | 0 <= i < k :: ds[..k][i] == ds[i];
  }

  /** In particular all of at most 120 reporting agents are listed, each with its latest heartbeat. */
  lemma FewAgentsConverge(ds: seq<Delivery>, digest: AgentEvent -> string)
    requires |Agents(ds)| <= SESSION_LIMIT
    ensures Converged(DeliverAll(ds, digest).sessions, ds)
    ensures forall id :: Stays(ds, digest, id)
  {
    hide Faithful, Ids, Agents;
    forall id, k | 0 <= k <= |ds| && id in Agents(ds[..k])
      ensures FindSession(DeliverAll(ds[..k], digest).sessions, id).Some?
    {
      AgentsOfPrefix(ds, k);
      SetSizeMonotone(Agents(ds[..k]), Agents(ds));
      ListedWhileRoom(ds[..k], digest);
      FoundIffListed(DeliverAll(ds[..k], digest).sessions, id);
    }
    var xs := DeliverAll(ds, digest).sessions;
    HeartbeatsConverge(ds, digest);
    forall id
      ensures id in Agents(ds) ==> FindSession(xs, id).Some?
      ensures FindSession(xs, id).Some? ==> Faithful(xs[FindSession(xs, id).value], ds)
    {
      StayingAgentConverges(ds, digest, id);
    }
    forall i | 0 <= i < |xs|
      ensures Faithful(xs[i], ds)
    {
      assert FindSession(xs, xs[i].id).value == i;
    }
  }

  lemma {:induction false} LatestIsPrepared(ds: seq<Delivery>, id: string)
    ensures Latest(ds, id).Some? ==>
              && Latest(ds, id).value.id == id
              && !Latest(ds, id).value.state.Raw?
              && exists i :: 0 <= i < |ds| && IsBeat(ds[i], id)
                             && SameButStart(Latest(ds, id).value, Prepared(ds[i].session, ds[i].now))
                             && (ds[i].session.startedAt != 0 ==>
                                   Latest(ds, id).value.startedAt == ds[i].session.startedAt)
    ensures forall i | 0 <= i < |ds| && IsBeat(ds[i], id) ::
              Latest(ds, id).Some? && ds[i].session.sequence <= Latest(ds, id).value.sequence
  {
    hide TrimSpace;
    if ds != [] {
      LatestIsPrepared(ds[..|ds| - 1], id);
    }
  }

  lemma SummaryFits(s: Snapshot, staleAfter: int, now: Instant)
    ensures Fits(Summarized(s, staleAfter, now))
  {
    hide RefreshAll, SortBy, CountAll;
  }

  predicate Fits(s: Snapshot) {
    |s.sessions| <= SESSION_LIMIT && |s.events| <= EVENT_LIMIT
  }

  lemma DeliveryFits(s: Snapshot, d: Delivery, digest: AgentEvent -> string)
    requires Fits(s)
    ensures Fits(Deliver(s, d, digest))
  {
    hide Summarized, Prepared, PreparedEvent, TrimSpace;
    forall s': Snapshot ensures Fits(Summarized(s', d.staleAfter, d.now)) {
      SummaryFits(s', d.staleAfter, d.now);
    }
  }

  /** After any deliveries no more sessions and events are kept than there is room for. */
  lemma {:induction false} KeptWithinLimits(ds: seq<Delivery>, digest: AgentEvent -> string)
    ensures |DeliverAll(ds, digest).sessions| <= SESSION_LIMIT
    ensures |DeliverAll(ds, digest).events| <= EVENT_LIMIT
  {
    if ds != [] {
      KeptWithinLimits(ds[..|ds| - 1], digest);
      DeliveryFits(DeliverAll(ds[..|ds| - 1], digest), ds[|ds| - 1], digest);
    }
  }

  /**
   The room is exactly what everybody's presence needs: every agent that reported is still there if and only if
   they are at most 120.
   */
  lemma EveryAgentPresentIff(ds: seq<Delivery>, digest: AgentEvent -> string)
    ensures (forall id | id in Agents(ds) :: FindSession(DeliverAll(ds, digest).sessions, id).Some?) <==>
              |Agents(ds)| <= SESSION_LIMIT
  {
    hide Ids, Agents;
    var xs := DeliverAll(ds, digest).sessions;
    if |Agents(ds)| <= SESSION_LIMIT {
      FewAgentsConverge(ds, digest);
    } else if forall id | id in Agents(ds) :: FindSession(xs, id).Some? {
      KeptWithinLimits(ds, digest);
      forall id | id in Agents(ds)
        ensures id in Ids(xs)
      {
        FoundIffListed(xs, id);
      }
      FewIds(xs);
      SetSizeMonotone(Agents(ds), Ids(xs));
    }
  }

  /** Two heartbeats of one agent with one sequence say the same. */
  predicate Agree(d: Delivery, e: Delivery)
    requires d.Heartbeat? && e.Heartbeat?
  {
    d.session.id == e.session.id && d.session.sequence == e.session.sequence ==>
      SameReport(Prepared(d.session, d.now), Prepared(e.session, e.now))
  }

  predicate SameReport(x: Session, y: Session) {
    Payload(x) == Payload(y) && x.state == y.state
  }

  /** Sequences determine what they carry. */
  predicate Determined(ds: seq<Delivery>, es: seq<Delivery>) {
    forall i, j | 0 <= i < |ds| && 0 <= j < |es| && ds[i].Heartbeat? && es[j].Heartbeat? :: Agree(ds[i], es[j])
  }

  /** Every heartbeat of one history is delivered in the other. */
  ghost predicate BeatsWithin(ds: seq<Delivery>, es: seq<Delivery>) {
    forall i | 0 <= i < |ds| && ds[i].Heartbeat? ::
      exists j :: 0 <= j < |es| && es[j].Heartbeat? && es[j].session == ds[i].session
  }

  lemma LatestWithin(ds: seq<Delivery>, es: seq<Delivery>, id: string)
    requires BeatsWithin(ds, es) && Latest(ds, id).Some?
    ensures Latest(es, id).Some? && Latest(ds, id).value.sequence <= Latest(es, id).value.sequence
  {
    LatestIsPrepared(ds, id);
    LatestIsPrepared(es, id);
    var i :| 0 <= i < |ds| && IsBeat(ds[i], id)
             && SameButStart(Latest(ds, id).value, Prepared(ds[i].session, ds[i].now));
    var j :| 0 <= j < |es| && es[j].Heartbeat? && es[j].session == ds[i].session;
    assert IsBeat(es[j], id);
  }

  lemma LatestAgree(ds: seq<Delivery>, es: seq<Delivery>, id: string)
    requires Determined(ds, es) && Latest(ds, id).Some? && Latest(es, id).Some?
    requires Latest(ds, id).value.sequence == Latest(es, id).value.sequence
    ensures SameReport(Latest(ds, id).value, Latest(es, id).value)
  {
    LatestIsPrepared(ds, id);
    LatestIsPrepared(es, id);
    var i :| 0 <= i < |ds| && IsBeat(ds[i], id)
             && SameButStart(Latest(ds, id).value, Prepared(ds[i].session, ds[i].now));
    var j :| 0 <= j < |es| && IsBeat(es[j], id)
             && SameButStart(Latest(es, id).value, Prepared(es[j].session, es[j].now));
    assert Agree(ds[i], es[j]);
  }

  /**
   The projection does not depend on the network: in two histories with the same heartbeats, in any order and any
   multiplicity, an agent that neither drops ends up listed in both or in neither, and its two entries carry the
   same payload and the same state, unless one of them has gone stale.
   */
  lemma OrderDoesNotMatter(ds: seq<Delivery>, es: seq<Delivery>, digest: AgentEvent -> string, id: string)
    requires BeatsWithin(ds, es) && BeatsWithin(es, ds) && Determined(ds, es)
    requires Stays(ds, digest, id) && Stays(es, digest, id)
    ensures var xs, ys := DeliverAll(ds, digest).sessions, DeliverAll(es, digest).sessions;
            && (FindSession(xs, id).Some? <==> FindSession(ys, id).Some?)
            && (FindSession(xs, id).Some? && FindSession(ys, id).Some? ==>
                  var x, y := xs[FindSession(xs, id).value], ys[FindSession(ys, id).value];
                  Payload(x) == Payload(y) && (x.state == y.state || x.state.Stale? || y.state.Stale?))
  {
    hide DeliverAll, Agents, Stays, Distinct, Determined, BeatsWithin;
    StayingAgentConverges(ds, digest, id);
    StayingAgentConverges(es, digest, id);
    ReportedIffLatest(ds, id);
    ReportedIffLatest(es, id);
    if Latest(ds, id).Some? {
      LatestWithin(ds, es, id);
    }
    if Latest(es, id).Some? {
      LatestWithin(es, ds, id);
      LatestAgree(ds, es, id);
    }
  }

  // ---- What is stored -------------------------------------------------------

  /** The words for a state; the snapshot spells it as the first. */
  function Spellings(v: AgentState): seq<string> {
    match v
    case Running => ["running", "working", "executing", "active"]
    case Waiting => ["waiting", "queued", "ready"]
    case Blocked => ["blocked", "needs_you", "needs-you", "error", "failed"]
    case Idle => ["idle", "paused", "done", "completed", "succeeded"]
    case Stale => ["stale"]
    case Offline => ["offline"]
    case _ => []
  }

  /** A state is read from its words, in any case and with any blanks around them, and from nothing else. */
  lemma StateNamesAreReadIff(v: AgentState, before: string, text: string, after: string)
    requires Blank(before) && Blank(after) && SolidEnds(text) && !v.Raw? && !v.Unknown?
    ensures NormalizeState(Raw(before + text + after)) == v <==> ToLower(text) in Spellings(v)
    ensures !NormalizeState(Raw(before + text + after)).Raw?
  {
    hide TrimSpace, ToLower, Blank, SolidEnds;
    TrimTakesBlanks(before, text, after);
  }

  predicate Normal(x: Session) {
    && TrimSpace(x.id) != "" && x.name != "" && x.kind != "" && x.provider != "" && x.source != ""
    && 0.0 <= x.progress <= 1.0 && !x.state.Raw? && x.lastHeartbeat != 0
  }

  lemma PreparedIsNormal(x: Session, now: Instant)
    requires TrimSpace(x.id) != "" && now != 0
    ensures Normal(Prepared(x, now))
  {
    assert TrimSpace("") == "";
  }

  lemma SummaryKeepsNormal(s: Snapshot, staleAfter: int, now: Instant)
    requires forall x | x in s.sessions :: Normal(x)
    ensures forall x | x in Summarized(s, staleAfter, now).sessions :: Normal(x)
  {
    hide Normal, SortBy, CountAll;
    var ys := RefreshAll(s.sessions, staleAfter, now);
    forall y | y in ys ensures Normal(y) {
      var i :| 0 <= i < |ys| && ys[i] == y;
      RefreshKeepsNormal(s.sessions[i], staleAfter, now);
    }
    SortPermutes(SessionBefore, ys);
    SameMembers(SortBy(SessionBefore, ys), ys);
  }

  lemma RefreshKeepsNormal(x: Session, staleAfter: int, now: Instant)
    requires Normal(x)
    ensures Normal(Refresh(x, staleAfter, now))
  {
  }

  /**
   Whatever is delivered, every stored session is complete: its fields are filled and its progress is a fraction.
   */
  lemma {:induction false} StoredSessionsAreNormal(ds: seq<Delivery>, digest: AgentEvent -> string)
    requires forall i | 0 <= i < |ds| :: ds[i].now != 0
    ensures forall x | x in DeliverAll(ds, digest).sessions :: Normal(x)
  {
    if ds != [] {
      var s, d := DeliverAll(ds[..|ds| - 1], digest), ds[|ds| - 1];
      StoredSessionsAreNormal(ds[..|ds| - 1], digest);
      DeliveryKeepsNormal(s, d, digest);
    }
  }

  lemma DeliveryKeepsNormal(s: Snapshot, d: Delivery, digest: AgentEvent -> string)
    requires d.now != 0 && forall x | x in s.sessions :: Normal(x)
    ensures forall x | x in Deliver(s, d, digest).sessions :: Normal(x)
  {
    hide Normal, Summarized, Prepared, PreparedEvent, NormalizeState;
    forall s': Snapshot | (forall x | x in s'.sessions :: Normal(x))
      ensures forall x | x in Summarized(s', d.staleAfter, d.now).sessions :: Normal(x)
    {
      SummaryKeepsNormal(s', d.staleAfter, d.now);
    }
    if d.Heartbeat? && TrimSpace(d.session.id) != "" {
      PreparedIsNormal(d.session, d.now);
      StartIsNormal(Prepared(d.session, d.now));
    }
  }

  lemma StartIsNormal(x: Session)
    requires Normal(x)
    ensures forall start: Instant :: Normal(x.(startedAt := start))
  {
  }

  // ---- Summaries mean what they say -----------------------------------------

  function CountOf(xs: seq<Session>, p: Session -> bool): nat {
    if xs == [] then 0 else CountOf(xs[..|xs| - 1], p) + if p(xs[|xs| - 1]) then 1 else 0
  }

  /** Nothing was heard from the session for longer than allowed. */
  predicate Silent(x: Session, staleAfter: int, now: Instant) {
    x.lastHeartbeat != 0 && now > x.lastHeartbeat + staleAfter
  }

  /** The session reports one of the states, and is not silent. */
  function Present(states: set<AgentState>, staleAfter: int, now: Instant): Session -> bool {
    (x: Session) => NormalizeState(x.state) in states && !Silent(x, staleAfter, now)
  }

  /** The session is silent, or says itself that it is stale or offline. */
  function Gone(staleAfter: int, now: Instant): Session -> bool {
    (x: Session) => NormalizeState(x.state) in {Stale, Offline} || Silent(x, staleAfter, now)
  }

  lemma RefreshMeans(x: Session, staleAfter: int, now: Instant)
    ensures var y := Refresh(x, staleAfter, now);
            && !y.state.Raw? && y.(state := x.state) == x
            && (Silent(x, staleAfter, now) ==> y.state in {Stale, Offline})
            && (!Silent(x, staleAfter, now) ==> y.state == NormalizeState(x.state))
            && (y.state.Offline? <==> NormalizeState(x.state).Offline?)
  {
  }

  lemma {:induction false} CountsMean(xs: seq<Session>, staleAfter: int, now: Instant, states: set<AgentState>)
    ensures states !! {Stale, Offline} ==>
              Count(RefreshAll(xs, staleAfter, now), states) == CountOf(xs, Present(states, staleAfter, now))
    ensures Count(RefreshAll(xs, staleAfter, now), {Stale, Offline}) == CountOf(xs, Gone(staleAfter, now))
  {
    if xs != [] {
      hide Refresh, RefreshAll, NormalizeState, Silent;
      var k := |xs| - 1;
      CountsMean(xs[..k], staleAfter, now, states);
      RefreshMeans(xs[k], staleAfter, now);
      assert RefreshAll(xs, staleAfter, now)[..k] == RefreshAll(xs[..k], staleAfter, now);
    }
  }

  /**
   The counts of a summary are over every session it was given, also those it drops. Running, waiting and blocked
   are the sessions that report it and are not silent, active is their sum, and stale are those that are silent or
   say so; what is left is idle or unknown and counts as nothing.
   */
  lemma CountsCoverEverySession(s: Snapshot, staleAfter: int, now: Instant)
    ensures Summarized(s, staleAfter, now).observedAt == now && Summarized(s, staleAfter, now).sources == s.sources
    ensures var c := Summarized(s, staleAfter, now).counts;
            && c.running == CountOf(s.sessions, Present({Running}, staleAfter, now))
            && c.waiting == CountOf(s.sessions, Present({Waiting}, staleAfter, now))
            && c.blocked == CountOf(s.sessions, Present({Blocked}, staleAfter, now))
            && c.active == c.running + c.waiting + c.blocked
            && c.stale == CountOf(s.sessions, Gone(staleAfter, now))
            && c.active + c.stale + CountOf(s.sessions, Present({Idle, Unknown}, staleAfter, now)) == |s.sessions|
  {
    hide Refresh, RefreshAll, SortBy;
    var xs, refreshed := s.sessions, RefreshAll(s.sessions, staleAfter, now);
    RefreshedIsNotRaw(xs, staleAfter, now);
    CountsSum(refreshed);
    CountsMean(xs, staleAfter, now, {Running});
    CountsMean(xs, staleAfter, now, {Waiting});
    CountsMean(xs, staleAfter, now, {Blocked});
    CountsMean(xs, staleAfter, now, {Idle, Unknown});
  }

  lemma {:induction false} CountsSum(xs: seq<Session>)
    requires NoneRaw(xs)
    ensures Count(xs, {Running, Waiting, Blocked}) == Count(xs, {Running}) + Count(xs, {Waiting}) + Count(xs, {Blocked})
    ensures Count(xs, {Running, Waiting, Blocked}) + Count(xs, {Stale, Offline}) + Count(xs, {Idle, Unknown}) == |xs|
  {
    if xs != [] {
      assert !xs[|xs| - 1].state.Raw?;
      CountsSum(xs[..|xs| - 1]);
    }
  }

  /**
   `unknown` is missing from the rank table, so it ties with `blocked` whatever the heartbeats are. Two sessions
   of one of these states with different heartbeats then tie with one of the other, but not with each other.
   */
  ghost predicate UnknownMeetsBlocked(xs: seq<Session>) {
    exists u, x, y | u in xs && x in xs && y in xs ::
      && x.state == y.state && x.lastHeartbeat != y.lastHeartbeat
      && ((u.state.Unknown? && x.state.Blocked?) || (u.state.Blocked? && x.state.Unknown?))
  }

  predicate NoneRaw(xs: seq<Session>) {
    forall x | x in xs :: !x.state.Raw?
  }

  /** That is all that is wrong with the comparison: on any other sessions it is a strict weak order. */
  lemma SessionOrderIff(xs: seq<Session>)
    requires NoneRaw(xs)
    ensures WeakOrderOn(SessionBefore, xs) <==> !UnknownMeetsBlocked(xs)
  {
    if UnknownMeetsBlocked(xs) {
      var u, x, y :| u in xs && x in xs && y in xs
                     && x.state == y.state && x.lastHeartbeat != y.lastHeartbeat
                     && ((u.state.Unknown? && x.state.Blocked?) || (u.state.Blocked? && x.state.Unknown?));
      assert !SessionBefore(x, u) && !SessionBefore(u, x) && !SessionBefore(y, u) && !SessionBefore(u, y);
      assert SessionBefore(x, y) || SessionBefore(y, x);
    }
  }

  lemma RefreshedIsNotRaw(xs: seq<Session>, staleAfter: int, now: Instant)
    ensures NoneRaw(RefreshAll(xs, staleAfter, now))
  {
    hide TrimSpace, ToLower;
  }

  /**
   `x` may be listed before `y`: blocked and unknown before running, then waiting, idle, stale and offline; and of two
   in one state not the one heard from longer ago.
   */
  predicate MayPrecede(x: Session, y: Session) {
    if x.state == y.state then x.lastHeartbeat >= y.lastHeartbeat
    else
      match y.state
      case Running => x.state in {Blocked, Unknown}
      case Waiting => x.state in {Blocked, Unknown, Running}
      case Idle => x.state in {Blocked, Unknown, Running, Waiting}
      case Stale => x.state in {Blocked, Unknown, Running, Waiting, Idle}
      case Offline => true
      case _ => x.state in {Blocked, Unknown}
  }

  /**
   Summaries then list the sessions in that order, as many as there is room for, and what they drop comes after all
   they keep.
   */
  lemma SummaryIsRanked(s: Snapshot, staleAfter: int, now: Instant) returns (dropped: seq<Session>)
    requires !UnknownMeetsBlocked(RefreshAll(s.sessions, staleAfter, now))
    ensures var kept := Summarized(s, staleAfter, now).sessions;
            && (forall i, j | 0 <= i < j < |kept| :: MayPrecede(kept[i], kept[j]))
            && (forall x, y | x in kept && y in dropped :: MayPrecede(x, y))
            && multiset(kept) + multiset(dropped) == multiset(RefreshAll(s.sessions, staleAfter, now))
            && |kept| == if |s.sessions| <= 120 then |s.sessions| else 120
  {
    hide RefreshAll, SortBy, CountAll, UnknownMeetsBlocked, SessionBefore, MayPrecede, InOrder;
    var refreshed := RefreshAll(s.sessions, staleAfter, now);
    var sorted := SortBy(SessionBefore, refreshed);
    RefreshedIsNotRaw(s.sessions, staleAfter, now);
    SessionOrderIff(refreshed);
    SortOrders(SessionBefore, refreshed);
    SortPermutes(SessionBefore, refreshed);
    SameMembers(refreshed, sorted);
    InOrderMayPrecede(sorted);
    dropped := CutKeepsOrder(sorted);
  }

  lemma CutKeepsOrder(sorted: seq<Session>) returns (dropped: seq<Session>)
    requires forall i, j | 0 <= i < j < |sorted| :: MayPrecede(sorted[i], sorted[j])
    ensures var kept := Take(sorted, SESSION_LIMIT);
            && (forall i, j | 0 <= i < j < |kept| :: MayPrecede(kept[i], kept[j]))
            && (forall x, y | x in kept && y in dropped :: MayPrecede(x, y))
            && multiset(kept) + multiset(dropped) == multiset(sorted)
  {
    hide MayPrecede;
    var kept := Take(sorted, SESSION_LIMIT);
    dropped := sorted[|kept|..];
    assert sorted == kept + dropped;
    forall x, y | x in kept && y in dropped
      ensures MayPrecede(x, y)
    {
      var i :| 0 <= i < |kept| && kept[i] == x;
      var j :| 0 <= j < |dropped| && dropped[j] == y;
      assert sorted[i] == x && sorted[|kept| + j] == y;
    }
  }

  lemma InOrderMayPrecede(xs: seq<Session>)
    requires InOrder(SessionBefore, xs) && NoneRaw(xs)
    ensures forall i, j | 0 <= i < j < |xs| :: MayPrecede(xs[i], xs[j])
  {
    forall i, j | 0 <= i < j < |xs|
      ensures MayPrecede(xs[i], xs[j])
    {
      assert !SessionBefore(xs[j], xs[i]) && xs[i] in xs && xs[j] in xs;
    }
  }

  /** And only then: otherwise some arrangement of the same sessions comes out of the sort out of order. */
  lemma SessionsAreSortedIff(xs: seq<Session>)
    requires NoneRaw(xs)
    ensures (forall ys | multiset(ys) == multiset(xs) :: InOrder(SessionBefore, SortBy(SessionBefore, ys)))
            <==> !UnknownMeetsBlocked(xs)
  {
    hide SortBy, UnknownMeetsBlocked;
    SessionOrderIff(xs);
    SortsEveryArrangementIff(SessionBefore, xs);
  }

  // ---- The newest events ----------------------------------------------------

  /** The events the projection has accepted: those delivered that were not too far ahead of its clock. */
  function Accepted(ds: seq<Delivery>, digest: AgentEvent -> string): set<AgentEvent> {
    if ds == [] then {}
    else
      var d, earlier := ds[|ds| - 1], Accepted(ds[..|ds| - 1], digest);
      if d.Publish? && !TooFarAhead(PreparedEvent(d.event, digest, d.now), d.now)
      then earlier + {PreparedEvent(d.event, digest, d.now)}
      else earlier
  }

  /** Neither an identifier nor a timestamp belongs to two events. */
  ghost predicate Identified(es: set<AgentEvent>) {
    forall e, f | e in es && f in es && (e.id == f.id || e.timestamp == f.timestamp) :: e == f
  }

  ghost predicate Descending(q: seq<AgentEvent>) {
    forall i, j | 0 <= i < j < |q| :: q[i].timestamp > q[j].timestamp
  }

  /**
   The newest events of `es`, latest first: as many as there is room for, and every other one is older than all of
   them.
   */
  ghost predicate IsNewest(q: seq<AgentEvent>, es: set<AgentEvent>) {
    && Descending(q)
    && (forall e | e in q :: e in es)
    && |q| == (if |es| <= 250 then |es| else 250)
    && (forall e, f | e in es && e !in q && f in q :: e.timestamp < f.timestamp)
  }

  ghost function Elements(q: seq<AgentEvent>): set<AgentEvent> {
    set e | e in q
  }

  lemma {:induction false} DescendingSize(q: seq<AgentEvent>)
    requires Descending(q)
    ensures |Elements(q)| == |q|
  {
    if q == [] {
      assert Elements(q) == {};
    } else {
      hide Elements;
      DescendingSize(q[1..]);
      FirstIsNew(q);
    }
  }

  lemma FirstIsNew(q: seq<AgentEvent>)
    requires Descending(q) && q != []
    ensures Elements(q) == {q[0]} + Elements(q[1..]) && q[0] !in Elements(q[1..])
  {
    assert q == [q[0]] + q[1..];
    forall e | e in q[1..] ensures e.timestamp < q[0].timestamp {
      var i :| 0 <= i < |q[1..]| && q[1..][i] == e;
      assert q[i + 1] == e;
    }
  }

  lemma EqualSize<T>(a: set<T>, b: set<T>)
    requires a <= b && |a| == |b|
    ensures a == b
  {
    assert b == a + (b - a);
    assert |b| == |a| + |b - a|;
  }

  /** Two descending lists of the same events are the same list. */
  lemma {:induction false} DescendingUnique(q: seq<AgentEvent>, r: seq<AgentEvent>)
    requires Descending(q) && Descending(r) && Elements(q) == Elements(r)
    ensures q == r
  {
    DescendingSize(q);
    DescendingSize(r);
    if q != [] {
      assert q[0] in Elements(r) && r[0] in Elements(q);
      assert q[0] == r[0];
      assert Elements(q[1..]) == Elements(q) - {q[0]} by {
        assert forall i | 0 < i < |q| :: q[i] == q[1..][i - 1] && q[i] != q[0];
      }
      assert Elements(r[1..]) == Elements(r) - {r[0]} by {
        assert forall i | 0 < i < |r| :: r[i] == r[1..][i - 1] && r[i] != r[0];
      }
      DescendingUnique(q[1..], r[1..]);
    }
  }

  lemma NewestWithin(q: seq<AgentEvent>, r: seq<AgentEvent>, es: set<AgentEvent>)
    requires IsNewest(q, es) && IsNewest(r, es)
    ensures Elements(q) <= Elements(r)
  {
    DescendingSize(q);
    DescendingSize(r);
    forall e | e in q
      ensures e in r
    {
      assert e in Elements(q);
      if e !in r {
        assert forall f | f in r :: f in q;
        EqualSize(Elements(r), Elements(q));
      }
    }
  }

  /** There is only one list of the newest events. */
  lemma NewestIsUnique(q: seq<AgentEvent>, r: seq<AgentEvent>, es: set<AgentEvent>)
    requires IsNewest(q, es) && IsNewest(r, es)
    ensures q == r
  {
    DescendingSize(q);
    DescendingSize(r);
    NewestWithin(q, r, es);
    NewestWithin(r, q, es);
    DescendingUnique(q, r);
  }

  lemma {:induction false} OnceEach<T>(xs: seq<T>, x: T)
    requires forall i, j | 0 <= i < j < |xs| :: xs[i] != xs[j]
    ensures multiset(xs)[x] <= 1
  {
    if xs != [] {
      assert xs == [xs[0]] + xs[1..];
      assert multiset(xs) == multiset([xs[0]]) + multiset(xs[1..]);
      OnceEach(xs[1..], x);
    }
  }

  /** A permutation of events with distinct timestamps, in order, is in strict order. */
  lemma InOrderIsDescending(xs: seq<AgentEvent>, t: seq<AgentEvent>)
    requires multiset(xs) == multiset(t) && InOrder(Newer, t)
    requires forall i, j | 0 <= i < j < |xs| :: xs[i].timestamp != xs[j].timestamp
    ensures Descending(t)
  {
    SameMembers(xs, t);
    forall i, j | 0 <= i < j < |t|
      ensures t[i].timestamp > t[j].timestamp
    {
      assert !Newer(t[j], t[i]);
      if t[i].timestamp == t[j].timestamp {
        assert t[i] in xs && t[j] in xs;
        MultiplicityAt(t, i, j);
        OnceEach(xs, t[i]);
      }
    }
  }

  /** Sorting a descending list with one more event gives a descending list of the same events. */
  lemma SortWithArrival(q: seq<AgentEvent>, e: AgentEvent)
    requires Descending(q) && forall f | f in q :: f.timestamp != e.timestamp
    ensures var t := SortBy(Newer, q + [e]);
            Descending(t) && |t| == |q| + 1 && forall f :: f in t <==> f in q || f == e
  {
    var xs := q + [e];
    SortPermutes(Newer, xs);
    NewerIsWeakOrder(xs);
    SortOrders(Newer, xs);
    InOrderIsDescending(xs, SortBy(Newer, xs));
    SameMembers(xs, SortBy(Newer, xs));
  }

  lemma NewerIsWeakOrder(xs: seq<AgentEvent>)
    ensures WeakOrderOn(Newer, xs)
  {
  }

  /** A new event: the list keeps the newest of what has been accepted. */
  lemma NewArrivalKeepsNewest(q: seq<AgentEvent>, es: set<AgentEvent>, e: AgentEvent)
    requires IsNewest(q, es) && Identified(es + {e}) && e !in es
    ensures IsNewest(Take(SortBy(Newer, q + [e]), EVENT_LIMIT), es + {e})
  {
    assert forall f | f in q :: f in es + {e} && f != e;
    var t := SortBy(Newer, q + [e]);
    SortWithArrival(q, e);
    DroppedAreOlder(q, es, e, t);
  }

  lemma DroppedAreOlder(q: seq<AgentEvent>, es: set<AgentEvent>, e: AgentEvent, t: seq<AgentEvent>)
    requires IsNewest(q, es) && e !in es
    requires Descending(t) && |t| == |q| + 1 && forall f :: f in t <==> f in q || f == e
    ensures IsNewest(Take(t, EVENT_LIMIT), es + {e})
  {
    var r := Take(t, EVENT_LIMIT);
    assert forall f | f in r :: f in t;
    forall x, f | x in es + {e} && x !in r && f in r
      ensures x.timestamp < f.timestamp
    {
      if x in t {
        CutIsOlder(t, x, f);
      } else if f == e {
        EqualOrMore(q, es, x);
        assert t[EVENT_LIMIT] in t;
        CutIsOlder(t, t[EVENT_LIMIT], f);
      } else {
        assert f in q;
      }
    }
  }

  lemma CutIsOlder(t: seq<AgentEvent>, x: AgentEvent, f: AgentEvent)
    requires Descending(t) && f in Take(t, EVENT_LIMIT) && x in t
    requires x !in Take(t, EVENT_LIMIT) || (|t| > EVENT_LIMIT && x == t[EVENT_LIMIT])
    ensures x.timestamp < f.timestamp
  {
    var k :| 0 <= k < |Take(t, EVENT_LIMIT)| && t[k] == f;
    if x !in Take(t, EVENT_LIMIT) {
      var i :| 0 <= i < |t| && t[i] == x;
      assert i < |Take(t, EVENT_LIMIT)| ==> Take(t, EVENT_LIMIT)[i] == x;
    }
  }

  /** When an accepted event is not kept, the list is full. */
  lemma EqualOrMore(q: seq<AgentEvent>, es: set<AgentEvent>, x: AgentEvent)
    requires IsNewest(q, es) && x in es && x !in q
    ensures |q| == EVENT_LIMIT < |es|
  {
    DescendingSize(q);
    if |es| <= EVENT_LIMIT {
      EqualSize(Elements(q), es);
    }
  }

  lemma DroppedArrivalChangesNothing(q: seq<AgentEvent>, es: set<AgentEvent>, e: AgentEvent)
    requires IsNewest(q, es) && e in es && e !in q
    ensures Take(SortBy(Newer, q + [e]), EVENT_LIMIT) == q
  {
    EqualOrMore(q, es, e);
    assert forall i | 0 <= i < |q| :: q[i] in q && Newer(q[i], e);
    assert InOrder(Newer, q + [e]);
    SortLeavesSorted(Newer, q + [e]);
  }

  predicate Kept(q: seq<AgentEvent>, id: string) {
    exists i :: 0 <= i < |q| && q[i].id == id
  }

  /**
   An arrival, whether new, repeated while kept, or repeated after it was dropped: although only kept events are
   compared with it, the list stays the newest of all accepted ones.
   */
  lemma ArrivalKeepsNewest(q: seq<AgentEvent>, es: set<AgentEvent>, e: AgentEvent)
    requires IsNewest(q, es) && Identified(es + {e})
    ensures IsNewest(if Kept(q, e.id) then q else Take(SortBy(Newer, q + [e]), EVENT_LIMIT), es + {e})
  {
    if Kept(q, e.id) {
      var i :| 0 <= i < |q| && q[i].id == e.id;
      assert q[i] in es + {e} && q[i] == e;
      assert es + {e} == es;
    } else if e !in es {
      NewArrivalKeepsNewest(q, es, e);
    } else {
      assert e !in q;
      DroppedArrivalChangesNothing(q, es, e);
      assert es + {e} == es;
    }
  }

  /** What a delivery does to the events. */
  lemma DeliveredEvents(s: Snapshot, d: Delivery, digest: AgentEvent -> string)
    requires Descending(s.events) && |s.events| <= EVENT_LIMIT
    ensures Deliver(s, d, digest).events ==
            if !d.Publish? then s.events
            else
              var e := PreparedEvent(d.event, digest, d.now);
              if TooFarAhead(e, d.now) || Kept(s.events, e.id) then s.events
              else Take(SortBy(Newer, s.events + [e]), EVENT_LIMIT)
  {
    SortLeavesSorted(Newer, s.events);
  }

  /** `p` is the delivered event with what it lacks filled in, and not too far ahead of the clock. */
  predicate Stems(p: AgentEvent, d: Delivery, digest: AgentEvent -> string) {
    && d.Publish?
    && p.body == d.event.body && p.source == (if d.event.source != "" then d.event.source else "Agent Bridge")
    && p.timestamp == (if d.event.timestamp != 0 then d.event.timestamp else d.now)
    && p.timestamp - d.now <= 5 * 60 * 1_000_000_000
    && (if d.event.id != "" then p.id == d.event.id else p.id == digest(p.(id := "")))
  }

  lemma StemsIff(p: AgentEvent, d: Delivery, digest: AgentEvent -> string)
    ensures Stems(p, d, digest) <==>
              d.Publish? && !TooFarAhead(PreparedEvent(d.event, digest, d.now), d.now)
              && p == PreparedEvent(d.event, digest, d.now)
  {
    if d.Publish? {
      var e := PreparedEvent(d.event, digest, d.now);
      assert e.(id := "") == p.(id := "") ==> e.body == p.body && e.source == p.source && e.timestamp == p.timestamp;
    }
  }

  lemma {:induction false} AcceptedIff(ds: seq<Delivery>, digest: AgentEvent -> string, p: AgentEvent)
    ensures p in Accepted(ds, digest) <==> exists i :: 0 <= i < |ds| && Stems(p, ds[i], digest)
  {
    if ds != [] {
      hide Stems, TooFarAhead, PreparedEvent;
      var earlier, d := ds[..|ds| - 1], ds[|ds| - 1];
      AcceptedIff(earlier, digest, p);
      StemsIff(p, d, digest);
      if p in Accepted(earlier, digest) {
        var i :| 0 <= i < |earlier| && Stems(p, earlier[i], digest);
        assert Stems(p, ds[i], digest);
      }
      if i :| 0 <= i < |ds| && Stems(p, ds[i], digest) {
        assert i == |earlier| || earlier[i] == ds[i];
      }
      assert ds[|ds| - 1] == d;
    }
  }

  /**
   The streaming top-k. When neither identifiers nor timestamps are shared, after any arrivals, duplicates and
   other updates in between, the stored events are exactly the 250 newest accepted ones, latest first, each as it
   was delivered.
   */
  lemma NewestEventsAreKept(ds: seq<Delivery>, digest: AgentEvent -> string)
    requires Identified(Accepted(ds, digest))
    ensures IsNewest(DeliverAll(ds, digest).events, Accepted(ds, digest))
    ensures forall p :: p in Accepted(ds, digest) <==> exists i :: 0 <= i < |ds| && Stems(p, ds[i], digest)
  {
    NewestAreKept(ds, digest);
    forall p
      ensures p in Accepted(ds, digest) <==> exists i :: 0 <= i < |ds| && Stems(p, ds[i], digest)
    {
      AcceptedIff(ds, digest, p);
    }
  }

  lemma {:induction false} NewestAreKept(ds: seq<Delivery>, digest: AgentEvent -> string)
    requires Identified(Accepted(ds, digest))
    ensures IsNewest(DeliverAll(ds, digest).events, Accepted(ds, digest))
  {
    if ds != [] {
      var earlier, d := ds[..|ds| - 1], ds[|ds| - 1];
      NewestAreKept(earlier, digest);
      var s := DeliverAll(earlier, digest);
      DeliveredEvents(s, d, digest);
      if d.Publish? {
        var e := PreparedEvent(d.event, digest, d.now);
        if !TooFarAhead(e, d.now) {
          ArrivalKeepsNewest(s.events, Accepted(earlier, digest), e);
        }
      }
    }
  }

  /** Hence the stored events do not depend on the order or the multiplicity of arrivals. */
  lemma EventOrderDoesNotMatter(ds: seq<Delivery>, es: seq<Delivery>, digest: AgentEvent -> string)
    requires Accepted(ds, digest) == Accepted(es, digest) && Identified(Accepted(ds, digest))
    ensures DeliverAll(ds, digest).events == DeliverAll(es, digest).events
  {
    NewestEventsAreKept(ds, digest);
    NewestEventsAreKept(es, digest);
    NewestIsUnique(DeliverAll(ds, digest).events, DeliverAll(es, digest).events, Accepted(ds, digest));
  }

  lemma SummaryKeepsSources(s: Snapshot, staleAfter: int, now: Instant)
    ensures Summarized(s, staleAfter, now).sources == s.sources
  {
    hide RefreshAll, SortBy, CountAll;
  }

  // ---- Sources --------------------------------------------------------------

  /**
   A source's recorded observation time goes back in exactly one case: the source reports without a time. A late
   observation that carries one is dropped, and no other source changes.
   */
  lemma SourceRegressesIff(s: Snapshot, x: SourceStatus, staleAfter: int, now: Instant, id: string)
    requires FindSource(s.sources, id).Some? && x.lastObservedAt >= 0
    requires s.sources[FindSource(s.sources, id).value].lastObservedAt >= 0
    ensures var before := s.sources[FindSource(s.sources, id).value];
            var sources := SourceUpdated(s, x, staleAfter, now).sources;
            && FindSource(sources, id).Some?
            && (id != x.id ==> sources[FindSource(sources, id).value] == before)
            && (sources[FindSource(sources, id).value].lastObservedAt < before.lastObservedAt <==>
                  id == x.id && x.lastObservedAt == 0 && before.lastObservedAt != 0)
  {
    hide Summarized;
    forall s': Snapshot ensures Summarized(s', staleAfter, now).sources == s'.sources {
      SummaryKeepsSources(s', staleAfter, now);
    }
    var found := FindSource(s.sources, id);
    var sources := SourceUpdated(s, x, staleAfter, now).sources;
    assert sources[found.value].id == id;
    assert forall j | 0 <= j < found.value :: sources[j].id == s.sources[j].id != id;
    assert FindSource(sources, id) == found;
  }

  /** A reported source is recorded as reported, unless it reports from before what is already known of it. */
  lemma SourceIsRecorded(s: Snapshot, x: SourceStatus, staleAfter: int, now: Instant)
    ensures var sources, known := SourceUpdated(s, x, staleAfter, now).sources, FindSource(s.sources, x.id);
            && FindSource(sources, x.id).Some?
            && var entry := sources[FindSource(sources, x.id).value];
               if known.Some? && x.lastObservedAt != 0 && x.lastObservedAt < s.sources[known.value].lastObservedAt
                  && s.sources[known.value].lastObservedAt != 0
               then entry == s.sources[known.value] else entry == x
  {
    hide Summarized;
    forall s': Snapshot ensures Summarized(s', staleAfter, now).sources == s'.sources {
      SummaryKeepsSources(s', staleAfter, now);
    }
    var known := FindSource(s.sources, x.id);
    var sources := SourceUpdated(s, x, staleAfter, now).sources;
    var k := if known.Some? then known.value else |s.sources|;
    assert sources[k].id == x.id;
    assert forall j | 0 <= j < k :: sources[j] == s.sources[j] && sources[j].id != x.id;
  }

  // ---- The same, in place ---------------------------------------------------

  /** The agent state of the store, as its callers change it under the store's lock. */
  class AgentBoard {
    var observedAt: Instant
    var sessions: seq<Session>
    var events: seq<AgentEvent>
    var sources: seq<SourceStatus>
    var counts: Counts
    const digest: AgentEvent -> string

    constructor (digest: AgentEvent -> string)
      ensures State() == EMPTY && this.digest == digest
    {
      this.digest := digest;
      observedAt, sessions, events, sources, counts := 0, [], [], [], Counts(0, 0, 0, 0, 0);
    }

    ghost function State(): Snapshot
      reads this
    {
      Snapshot(observedAt, sessions, events, sources, counts)
    }

    method Summarize(staleAfter: int, now: Instant)
      modifies this
      ensures State() == Summarized(old(State()), staleAfter, now)
    {
      hide Refresh, RefreshAll, SortBy;
      observedAt := now;
      var active, running, waiting, blocked, stale := 0, 0, 0, 0, 0;
      ghost var refreshed := RefreshAll(sessions, staleAfter, now);
      for i := 0 to |sessions|
        invariant |sessions| == |refreshed|
        invariant forall k | 0 <= k < i :: sessions[k] == refreshed[k]
        invariant forall k | i <= k < |sessions| :: refreshed[k] == Refresh(sessions[k], staleAfter, now)
        invariant Counts(active, running, waiting, blocked, stale) == CountAll(refreshed[..i])
        invariant events == old(events) && sources == old(sources) && observedAt == now
      {
        var x := Refresh(sessions[i], staleAfter, now);
        sessions := sessions[i := x];
        assert refreshed[..i + 1][..i] == refreshed[..i];
        match x.state {
          case Running => running, active := running + 1, active + 1;
          case Waiting => waiting, active := waiting + 1, active + 1;
          case Blocked => blocked, active := blocked + 1, active + 1;
          case Stale => stale := stale + 1;
          case Offline => stale := stale + 1;
          case _ =>
        }
      }
      assert sessions == refreshed && refreshed[..|refreshed|] == refreshed;
      counts := Counts(active, running, waiting, blocked, stale);
      sessions := SortBy(SessionBefore, sessions);
      events := SortBy(Newer, events);
      if |events| > EVENT_LIMIT {
        events := events[..EVENT_LIMIT];
      }
      if |sessions| > SESSION_LIMIT {
        sessions := sessions[..SESSION_LIMIT];
      }
    }

    method UpsertAgent(x0: Session, staleAfter: int, now: Instant) returns (ok: bool)
      modifies this
      ensures ok <==> TrimSpace(x0.id) != ""
      ensures State() == Upserted(old(State()), x0, staleAfter, now)
    {
      if TrimSpace(x0.id) == "" {
        return false;
      }
      var x := Prepared(x0, now);
      var i := 0;
      while i < |sessions| && sessions[i].id != x.id
        invariant i <= |sessions|
        invariant forall j | 0 <= j < i :: sessions[j].id != x.id
      {
        i := i + 1;
      }
      if i < |sessions| {
        var stored := sessions[i];
        if stored.sequence > 0 && (x.sequence == 0 || x.sequence <= stored.sequence) {
          return true;
        }
        if x.startedAt == 0 {
          x := x.(startedAt := stored.startedAt);
        }
        sessions := sessions[i := x];
      } else {
        sessions := sessions + [x];
      }
      Summarize(staleAfter, now);
      return true;
    }

    method AddEvent(e0: AgentEvent, staleAfter: int, now: Instant) returns (ok: bool)
      modifies this
      ensures ok <==> !TooFarAhead(PreparedEvent(e0, digest, now), now)
      ensures State() == EventAdded(old(State()), e0, digest, staleAfter, now)
    {
      var e := e0;
      if e.timestamp == 0 {
        e := e.(timestamp := now);
      }
      if e.timestamp > now + FUTURE_TOLERANCE {
        return false;
      }
      if e.source == "" {
        e := e.(source := "Agent Bridge");
      }
      if e.id == "" {
        e := e.(id := digest(e));
      }
      for i := 0 to |events|
        invariant State() == old(State())
        invariant forall j | 0 <= j < i :: events[j].id != e.id
      {
        if events[i].id == e.id {
          return true;
        }
      }
      events := events + [e];
      Summarize(staleAfter, now);
      return true;
    }

    method UpdateSource(x: SourceStatus, staleAfter: int, now: Instant)
      modifies this
      ensures State() == SourceUpdated(old(State()), x, staleAfter, now)
    {
      var i := 0;
      while i < |sources| && sources[i].id != x.id
        invariant i <= |sources|
        invariant forall j | 0 <= j < i :: sources[j].id != x.id
      {
        i := i + 1;
      }
      if i < |sources| {
        if sources[i].lastObservedAt != 0 && x.lastObservedAt != 0 && x.lastObservedAt < sources[i].lastObservedAt {
          return;
        }
        sources := sources[i := x];
      } else {
        sources := sources + [x];
      }
      Summarize(staleAfter, now);
    }
  }
}
