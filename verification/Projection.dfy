/**
 The state projector: read models folded over observations, with a hash chain and verifications bound to exact
 repository heads.
 */
module Projection {
  import opened Wrappers
  import opened Sequences
  import opened Sorting
  import opened Observation

  /** A SHA-256 hash, as the number its 64 hexadecimal digits write. */
  type Digest = nat

  const ZERO_HASH: Digest := 0
  const INITIAL_HEAD: string := "0000000"
  const WINDOW: nat := 50

  datatype Repository = Repository(id: string, governance: string, headSha: string, updatedAt: Timestamp)

  datatype Status = Open(name: string) | Stale

  datatype Verification = Verification(id: string, repo: string, exactHead: string, status: Status, reason: string)

  datatype Agent = Agent(
    id: string, lastAction: string, lastSeenAt: Timestamp, activeRepos: set<string>, totalActions: nat)

  datatype Priority = Critical | High | Medium | Low | Unranked

  datatype Alert = Alert(id: string, priority: Priority, repo: string, reason: string)

  datatype Block = Block(
    height: nat, observationId: string, timestamp: Timestamp, prevHash: Digest, digest: string, blockHash: Digest)

  datatype Node = Node(kind: string, id: string)

  datatype Edge = Edge(source: Node, relation: string, target: Node)

  datatype State = State(
    repositories: map<string, Repository>, verifications: seq<Verification>, agents: map<string, Agent>,
    attention: seq<Alert>, nodes: set<Node>, edges: set<Edge>, chain: seq<Block>, lastHash: Digest)

  /** The digest of a block's fields. */
  type BlockHasher = (Digest, string, string, Timestamp) -> Digest

  /** Before anything is observed: any inventory, verifications and alerts, but no blocks. */
  predicate Fresh(s: State) {
    s.chain == [] && s.lastHash == ZERO_HASH
  }

  // ---- Hash chain -----------------------------------------------------------

  function NextBlock(s: State, e: Envelope, h: BlockHasher): Block {
    Block(|s.chain| + 1, e.id, e.occurredAt, s.lastHash, e.digest, h(s.lastHash, e.id, e.digest, e.occurredAt))
  }

  function Chained(s: State, e: Envelope, h: BlockHasher): State {
    var b := NextBlock(s, e, h);
    var chain := s.chain + [b];
    s.(lastHash := b.blockHash, chain := if |chain| > WINDOW then chain[1..] else chain)
  }

  // ---- Repositories and verifications ---------------------------------------

  function Discovered(s: State, e: Envelope): State {
    if e.subjectId in s.repositories then s
    else
      s.(repositories :=
           s.repositories[e.subjectId := Repository(e.subjectId, "DISCOVERED_NEW", INITIAL_HEAD, e.occurredAt)])
  }

  predicate BoundTo(v: Verification, repo: string, sha: string) {
    v.repo == repo && v.exactHead == sha
  }

  function StaleReason(from: string, to: string): string {
    "HEAD advanced from " + Short(from) + " to " + Short(to)
  }

  function Short(sha: string): string {
    if |sha| > 7 then sha[..7] else sha
  }

  function Invalidate(v: Verification, repo: string, from: string, to: string): Verification {
    if BoundTo(v, repo, from) then v.(status := Stale, reason := StaleReason(from, to)) else v
  }

  function InvalidateAll(vs: seq<Verification>, repo: string, from: string, to: string): (r: seq<Verification>)
    ensures |r| == |vs|
    ensures forall i | 0 <= i < |vs| :: r[i] == Invalidate(vs[i], repo, from, to)
  {
    seq(|vs|, i requires 0 <= i < |vs| => Invalidate(vs[i], repo, from, to))
  }

  function AlertFor(v: Verification, from: string, to: string): Alert {
    Alert("attn_stale_" + v.id, High, v.repo, StaleReason(from, to))
  }

  function Alerts(vs: seq<Verification>, repo: string, from: string, to: string): seq<Alert> {
    if vs == [] then []
    else
      var v := vs[|vs| - 1];
      Alerts(vs[..|vs| - 1], repo, from, to) + if BoundTo(v, repo, from) then [AlertFor(v, from, to)] else []
  }

  function HeadMoved(s: State, repo: string, to: string, at: Timestamp): State
    requires repo in s.repositories
  {
    var r := s.repositories[repo];
    if to == "" || to == r.headSha then s
    else
      s.(repositories := s.repositories[repo := r.(headSha := to, updatedAt := at)],
         verifications := InvalidateAll(s.verifications, repo, r.headSha, to),
         attention := s.attention + Alerts(s.verifications, repo, r.headSha, to))
  }

  // ---- Agents, graph and attention ------------------------------------------

  function Acted(s: State, actor: string, e: Envelope): State {
    var a := if actor in s.agents then s.agents[actor] else Agent(actor, "", Missing, {}, 0);
    var acted := Agent(a.id, e.eventType, e.occurredAt, a.activeRepos + {e.subjectId}, a.totalActions + 1);
    s.(agents := s.agents[actor := acted])
  }

  function Drawn(s: State, actor: Option<string>, e: Envelope): State {
    var subject := Node(e.subjectType, e.subjectId);
    match actor
    case None => s.(nodes := s.nodes + {subject})
    case Some(id) =>
      s.(nodes := s.nodes + {subject, Node("Agent", id)},
         edges := s.edges + {Edge(Node("Agent", id), "EXECUTES", subject)})
  }

  function Weight(p: Priority): nat {
    match p
    case Critical => 4
    case High => 3
    case Medium => 2
    case Low => 1
    case Unranked => 0
  }

  function Heavier(a: Alert, b: Alert): bool {
    Weight(a.priority) > Weight(b.priority)
  }

  // ---- One observation ------------------------------------------------------

  /** A repository observation without provenance throws, after the chain and the inventory have moved on. */
  predicate LacksProvenance(e: Envelope) {
    e.subjectType == "Repository" && e.provenance.None?
  }

  /** An actor without an identifier throws later, when heads and verifications have moved on as well. */
  predicate LacksName(e: Envelope) {
    e.actor.Some? && e.actor.value.id.None?
  }

  predicate Throws(e: Envelope) {
    LacksProvenance(e) || LacksName(e)
  }

  function ActorId(e: Envelope): Option<string> {
    if e.actor.Some? then e.actor.value.id else None
  }

  /** What a repository observation does to the inventory: without provenance it stops after the discovery. */
  function Tracked(s: State, e: Envelope): State {
    if e.subjectType != "Repository" then s
    else if e.provenance.None? then Discovered(s, e)
    else HeadMoved(Discovered(s, e), e.subjectId, e.provenance.value.commitSha, e.occurredAt)
  }

  function Applied(s: State, e: Envelope, h: BlockHasher): State {
    var tracked := Tracked(Chained(s, e, h), e);
    if Throws(e) then tracked
    else
      var acted := if ActorId(e).Some? then Acted(tracked, ActorId(e).value, e) else tracked;
      var drawn := Drawn(acted, ActorId(e), e);
      drawn.(attention := SortBy(Heavier, drawn.attention))
  }

  function Fold(s: State, es: seq<Envelope>, h: BlockHasher): State {
    if es == [] then s else Applied(Fold(s, es[..|es| - 1], h), es[|es| - 1], h)
  }

  // ---- Exact-head safety ----------------------------------------------------

  /** A verification that is not stale names the current head of a known repository. */
  predicate Current(s: State, v: Verification) {
    v.status.Stale? || (v.repo in s.repositories && v.exactHead == s.repositories[v.repo].headSha)
  }

  ghost predicate HeadsAreExact(s: State) {
    forall i | 0 <= i < |s.verifications| :: Current(s, s.verifications[i])
  }

  /** What one observation does to repositories and verifications. */
  lemma AppliedHeads(s: State, e: Envelope, h: BlockHasher)
    ensures SameHeads(Applied(s, e, h), Tracked(s, e))
  {
    hide SortBy, Chained, Discovered, HeadMoved;
    var s' := Chained(s, e, h);
    ChainedKeepsHeads(s, e, h);
    if e.subjectType == "Repository" {
      DiscoveredIsLocal(s, s', e);
      if e.provenance.Some? {
        HeadMovedIsLocal(Discovered(s, e), Discovered(s', e), e.subjectId, e.provenance.value.commitSha, e.occurredAt);
      }
    }
  }

  predicate SameHeads(a: State, b: State) {
    a.repositories == b.repositories && a.verifications == b.verifications
  }

  lemma ChainedKeepsHeads(s: State, e: Envelope, h: BlockHasher)
    ensures SameHeads(Chained(s, e, h), s)
  {
  }

  lemma DiscoveredIsLocal(a: State, b: State, e: Envelope)
    requires SameHeads(a, b)
    ensures SameHeads(Discovered(a, e), Discovered(b, e)) && e.subjectId in Discovered(a, e).repositories
  {
  }

  lemma HeadMovedIsLocal(a: State, b: State, repo: string, to: string, at: Timestamp)
    requires SameHeads(a, b) && repo in a.repositories
    ensures SameHeads(HeadMoved(a, repo, to, at), HeadMoved(b, repo, to, at))
  {
  }

  /** The head of a repository moves exactly when it is observed with another, non-empty commit. */
  predicate Moves(s: State, e: Envelope, repo: string) {
    && e.subjectType == "Repository" && e.subjectId == repo && e.provenance.Some?
    && e.provenance.value.commitSha != ""
    && e.provenance.value.commitSha != if repo in s.repositories then s.repositories[repo].headSha else INITIAL_HEAD
  }

  /**
   One observation: exact heads stay exact; a stale verification stays stale; and one that was not becomes stale
   exactly when the head of its repository moves. Nothing else about a verification changes.
   */
  lemma ObservationKeepsHeadsExact(s: State, e: Envelope, h: BlockHasher)
    requires HeadsAreExact(s)
    ensures var s' := Applied(s, e, h);
            && HeadsAreExact(s')
            && |s'.verifications| == |s.verifications|
            && forall i | 0 <= i < |s.verifications| ::
                 var v, v' := s.verifications[i], s'.verifications[i];
                 && v'.id == v.id && v'.repo == v.repo && v'.exactHead == v.exactHead
                 && (v.status.Stale? ==> v'.status.Stale?)
                 && (!v.status.Stale? ==> (v'.status.Stale? <==> Moves(s, e, v.repo)))
                 && (!v'.status.Stale? ==> v' == v)
  {
    hide Applied, Alerts, StaleReason;
    AppliedHeads(s, e, h);
    var s' := Applied(s, e, h);
    forall i | 0 <= i < |s.verifications|
      ensures var v, v' := s.verifications[i], s'.verifications[i];
              && Current(s', v')
              && v'.id == v.id && v'.repo == v.repo && v'.exactHead == v.exactHead
              && (v.status.Stale? ==> v'.status.Stale?)
              && (!v.status.Stale? ==> (v'.status.Stale? <==> Moves(s, e, v.repo)))
              && (!v'.status.Stale? ==> v' == v)
    {
      assert Current(s, s.verifications[i]);
    }
  }

  /** The head a repository had before the observation, if it was known; else the one it is discovered with. */
  function HeadBefore(s: State, repo: string): string {
    if repo in s.repositories then s.repositories[repo].headSha else INITIAL_HEAD
  }

  /**
   From any state, one observation makes known at most its own repository, under a head of seven zeros, and moves at
   most its head, to its commit; the record says when it was discovered or last moved, and keeps the rest.
   */
  lemma HeadFollowsObservation(s: State, e: Envelope, h: BlockHasher, repo: string)
    ensures var s' := Applied(s, e, h);
            && (repo in s'.repositories <==>
                  repo in s.repositories || (e.subjectType == "Repository" && repo == e.subjectId))
            && (repo in s'.repositories ==>
                  s'.repositories[repo].headSha ==
                  if Moves(s, e, repo) then e.provenance.value.commitSha else HeadBefore(s, repo))
            && (repo in s.repositories ==>
                  && s'.repositories[repo].id == s.repositories[repo].id
                  && s'.repositories[repo].governance == s.repositories[repo].governance
                  && s'.repositories[repo].updatedAt ==
                     if Moves(s, e, repo) then e.occurredAt else s.repositories[repo].updatedAt)
            && (repo in s'.repositories && repo !in s.repositories ==>
                  && HeadBefore(s, repo) == "0000000"
                  && s'.repositories[repo].id == repo && s'.repositories[repo].governance == "DISCOVERED_NEW"
                  && s'.repositories[repo].updatedAt == e.occurredAt)
  {
    hide Applied, InvalidateAll, Alerts;
    AppliedHeads(s, e, h);
  }

  /**
   From any state, exactly the verifications bound to the head that moved away change, and only by becoming stale.
   */
  lemma ObservationInvalidatesExactly(s: State, e: Envelope, h: BlockHasher, i: nat)
    requires i < |s.verifications|
    ensures var s' := Applied(s, e, h);
            |s'.verifications| == |s.verifications|
            && s'.verifications[i] ==
               var v := s.verifications[i];
               if Moves(s, e, v.repo) && v.exactHead == HeadBefore(s, v.repo)
               then v.(status := Stale, reason := "HEAD advanced from " + Head7(v.exactHead) + " to "
                                                  + Head7(e.provenance.value.commitSha))
               else v
  {
    hide Applied, Alerts, Short;
    AppliedHeads(s, e, h);
    ShortIsHead7(HeadBefore(s, s.verifications[i].repo));
    if e.provenance.Some? {
      ShortIsHead7(e.provenance.value.commitSha);
    }
  }

  /** The first seven characters, or all if there are fewer. */
  function Head7(sha: string): string {
    sha[..if |sha| < 7 then |sha| else 7]
  }

  lemma ShortIsHead7(sha: string)
    ensures Short(sha) == Head7(sha)
  {
    assert sha[..|sha|] == sha;
  }

  /**
   Exact-head safety over whole runs: however many observations arrive, no verification that counts names an old
   head, and stale is for good.
   */
  lemma {:induction false} HeadsStayExact(s: State, es: seq<Envelope>, h: BlockHasher)
    requires HeadsAreExact(s)
    ensures var s' := Fold(s, es, h);
            && HeadsAreExact(s')
            && |s'.verifications| == |s.verifications|
            && forall i | 0 <= i < |s.verifications| ::
                 && s'.verifications[i].repo == s.verifications[i].repo
                 && s'.verifications[i].exactHead == s.verifications[i].exactHead
                 && (s.verifications[i].status.Stale? ==> s'.verifications[i].status.Stale?)
  {
    if es != [] {
      HeadsStayExact(s, es[..|es| - 1], h);
      ObservationKeepsHeadsExact(Fold(s, es[..|es| - 1], h), es[|es| - 1], h);
    }
  }

  /** Discovery of a repository from the outside sets its head and asks no verification about it. */
  function Replaced(s: State, r: Repository): State {
    s.(repositories := s.repositories[r.id := r], nodes := s.nodes + {Node("Repository", r.id)})
  }

  /** No verification that counts names another head of the repository. */
  predicate NamesNoOther(s: State, r: Repository) {
    forall i | 0 <= i < |s.verifications| ::
      !s.verifications[i].status.Stale? && s.verifications[i].repo == r.id ==>
        s.verifications[i].exactHead == r.headSha
  }

  /**
   It is recorded and drawn, and keeps heads exact if and only if no verification that counts names another head of
   that repository.
   */
  lemma ReplacementKeepsHeadsExactIff(s: State, r: Repository)
    requires HeadsAreExact(s)
    ensures HeadsAreExact(Replaced(s, r)) <==> NamesNoOther(s, r)
    ensures Replaced(s, r).repositories == s.repositories[r.id := r]
    ensures Replaced(s, r).nodes == s.nodes + {Node("Repository", r.id)}
  {
    var s' := Replaced(s, r);
    assert forall i | 0 <= i < |s.verifications| :: Current(s, s.verifications[i]);
    assert s'.verifications == s.verifications;
    if HeadsAreExact(s') {
      assert forall i | 0 <= i < |s'.verifications| :: Current(s', s'.verifications[i]);
    }
  }

  datatype Change = Observation(envelope: Envelope) | Replacement(repository: Repository)

  function Changed(s: State, c: Change, h: BlockHasher): State {
    match c
    case Observation(e) => Applied(s, e, h)
    case Replacement(r) => Replaced(s, r)
  }

  function AllChanged(s: State, cs: seq<Change>, h: BlockHasher): State {
    if cs == [] then s else Changed(AllChanged(s, cs[..|cs| - 1], h), cs[|cs| - 1], h)
  }

  /** Heads have been exact all along. */
  ghost predicate AlwaysExact(s: State, cs: seq<Change>, h: BlockHasher) {
    HeadsAreExact(AllChanged(s, cs, h)) && (cs != [] ==> AlwaysExact(s, cs[..|cs| - 1], h))
  }

  /** Each replacement found no verification that counts and names another head. */
  predicate AllAgree(s: State, cs: seq<Change>, h: BlockHasher) {
    cs != [] ==>
      var before, c := cs[..|cs| - 1], cs[|cs| - 1];
      && AllAgree(s, before, h)
      && (c.Replacement? ==> NamesNoOther(AllChanged(s, before, h), c.repository))
  }

  /**
   Over every run of observations and replacements in any order, heads are exact at every point if and only if each
   replacement agrees with the verifications it finds; observations never do harm.
   */
  lemma {:induction false} RunKeepsHeadsExactIff(s: State, cs: seq<Change>, h: BlockHasher)
    requires HeadsAreExact(s)
    ensures AlwaysExact(s, cs, h) <==> AllAgree(s, cs, h)
  {
    if cs != [] {
      hide Applied, HeadsAreExact, NamesNoOther, Replaced;
      var before, c := cs[..|cs| - 1], cs[|cs| - 1];
      var t := AllChanged(s, before, h);
      RunKeepsHeadsExactIff(s, before, h);
      if HeadsAreExact(t) {
        match c {
          case Observation(e) => ObservationKeepsHeadsExact(t, e, h);
          case Replacement(r) => ReplacementKeepsHeadsExactIff(t, r);
        }
      }
    }
  }

  // ---- Agents and the graph over whole runs ---------------------------------

  predicate ActsIn(e: Envelope, id: string) {
    !Throws(e) && ActorId(e) == Some(id)
  }

  function Actions(es: seq<Envelope>, id: string): seq<Envelope> {
    if es == [] then []
    else
      var earlier, e := Actions(es[..|es| - 1], id), es[|es| - 1];
      if ActsIn(e, id) then earlier + [e] else earlier
  }

  function Subjects(es: seq<Envelope>): set<string> {
    set e | e in es :: e.subjectId
  }

  /** What the record of an agent says, in terms of the observations it acted in. */
  ghost predicate RecordTells(s: State, id: string, own: seq<Envelope>) {
    && (id in s.agents <==> own != [])
    && (own != [] ==>
          var last := own[|own| - 1];
          s.agents[id] == Agent(id, last.eventType, last.occurredAt, Subjects(own), |own|))
  }

  lemma AppliedAgents(s: State, e: Envelope, h: BlockHasher)
    ensures Applied(s, e, h).agents ==
            if !Throws(e) && ActorId(e).Some? then Acted(s, ActorId(e).value, e).agents else s.agents
    ensures Applied(s, e, h).nodes == s.nodes + if Throws(e) then {} else NodesOf(e)
    ensures Applied(s, e, h).edges == s.edges + if Throws(e) then {} else EdgesOf(e)
  {
    hide SortBy, Chained, Discovered, HeadMoved;
    ChainedKeepsFleet(s, e, h);
    var s1 := Chained(s, e, h);
    DiscoveredKeepsFleet(s1, e);
    if e.subjectType == "Repository" && e.provenance.Some? {
      HeadMovedKeepsFleet(Discovered(s1, e), e.subjectId, e.provenance.value.commitSha, e.occurredAt);
    }
  }

  predicate SameFleet(a: State, b: State) {
    a.agents == b.agents && a.nodes == b.nodes && a.edges == b.edges
  }

  lemma ChainedKeepsFleet(s: State, e: Envelope, h: BlockHasher)
    ensures SameFleet(Chained(s, e, h), s)
  {
  }

  lemma DiscoveredKeepsFleet(s: State, e: Envelope)
    ensures SameFleet(Discovered(s, e), s) && e.subjectId in Discovered(s, e).repositories
  {
  }

  lemma HeadMovedKeepsFleet(s: State, repo: string, to: string, at: Timestamp)
    requires repo in s.repositories
    ensures SameFleet(HeadMoved(s, repo, to, at), s)
  {
  }

  lemma ActionTells(s: State, e: Envelope, id: string, own: seq<Envelope>)
    requires RecordTells(s, id, own)
    ensures RecordTells(Acted(s, id, e), id, own + [e])
  {
    assert Subjects(own + [e]) == Subjects(own) + {e.subjectId};
    if own == [] {
      assert Subjects(own) == {};
    }
  }

  /**
   Over any run each agent's record is what the observations it acted in say: last action, subjects and their
   number.
   */
  lemma {:induction false} AgentsTellTheirHistory(s: State, es: seq<Envelope>, h: BlockHasher, id: string)
    requires s.agents == map[]
    ensures RecordTells(Fold(s, es, h), id, Actions(es, id))
  {
    if es != [] {
      hide Applied, Throws, Acted;
      var before, e := Fold(s, es[..|es| - 1], h), es[|es| - 1];
      AgentsTellTheirHistory(s, es[..|es| - 1], h, id);
      AppliedAgents(before, e, h);
      if ActsIn(e, id) {
        ActionTells(before, e, id, Actions(es[..|es| - 1], id));
      }
    }
  }

  function NodesOf(e: Envelope): set<Node> {
    {Node(e.subjectType, e.subjectId)} + if ActorId(e).Some? then {Node("Agent", ActorId(e).value)} else {}
  }

  function EdgesOf(e: Envelope): set<Edge> {
    if ActorId(e).Some? then {Edge(Node("Agent", ActorId(e).value), "EXECUTES", Node(e.subjectType, e.subjectId))}
    else {}
  }

  /** Over any run the graph gains exactly the nodes and edges of the observations that did not throw. */
  lemma {:induction false} GraphTellsHistory(s: State, es: seq<Envelope>, h: BlockHasher)
    ensures forall n :: n in Fold(s, es, h).nodes <==>
              n in s.nodes || exists e :: e in es && !Throws(e) && n in NodesOf(e)
    ensures forall x :: x in Fold(s, es, h).edges <==>
              x in s.edges || exists e :: e in es && !Throws(e) && x in EdgesOf(e)
  {
    if es != [] {
      hide Applied, NodesOf, EdgesOf;
      var earlier, e := es[..|es| - 1], es[|es| - 1];
      GraphTellsHistory(s, earlier, h);
      AppliedAgents(Fold(s, earlier, h), e, h);
      assert es == earlier + [e];
    }
  }

  // ---- The chain over whole runs --------------------------------------------

  /** Every block ever pushed. */
  function History(s: State, es: seq<Envelope>, h: BlockHasher): seq<Block> {
    if es == [] then []
    else History(s, es[..|es| - 1], h) + [NextBlock(Fold(s, es[..|es| - 1], h), es[|es| - 1], h)]
  }

  /** Each block names its predecessor's hash, the first the zero hash, and its own hash is that of its fields. */
  ghost predicate Linked(blocks: seq<Block>, first: Digest, h: BlockHasher) {
    forall i | 0 <= i < |blocks| :: LinkedAt(blocks, i, first, h)
  }

  predicate LinkedAt(blocks: seq<Block>, i: nat, first: Digest, h: BlockHasher)
    requires i < |blocks|
  {
    && blocks[i].prevHash == (if i == 0 then first else blocks[i - 1].blockHash)
    && blocks[i].blockHash == h(blocks[i].prevHash, blocks[i].observationId, blocks[i].digest, blocks[i].timestamp)
  }

  lemma ChainStep(s: State, e: Envelope, h: BlockHasher)
    ensures var longer := s.chain + [NextBlock(s, e, h)];
            Applied(s, e, h).chain == if |longer| > WINDOW then longer[1..] else longer
    ensures Applied(s, e, h).lastHash == NextBlock(s, e, h).blockHash
  {
    hide SortBy, HeadMoved, Discovered, NextBlock;
    DiscoveredKeepsChain(Chained(s, e, h), e);
    if e.subjectType == "Repository" && e.provenance.Some? {
      HeadMovedKeepsChain(Discovered(Chained(s, e, h), e), e.subjectId, e.provenance.value.commitSha, e.occurredAt);
    }
  }

  lemma DiscoveredKeepsChain(s: State, e: Envelope)
    ensures Discovered(s, e).chain == s.chain && Discovered(s, e).lastHash == s.lastHash
    ensures e.subjectId in Discovered(s, e).repositories
  {
  }

  lemma HeadMovedKeepsChain(s: State, repo: string, to: string, at: Timestamp)
    requires repo in s.repositories
    ensures HeadMoved(s, repo, to, at).chain == s.chain && HeadMoved(s, repo, to, at).lastHash == s.lastHash
  {
  }

  lemma WindowStep(all: seq<Block>, b: Block)
    ensures var w := Last(all, WINDOW);
            Last(all + [b], WINDOW) == if |w| + 1 > WINDOW then (w + [b])[1..] else w + [b]
  {
  }

  lemma LinkedStep(all: seq<Block>, b: Block, first: Digest, h: BlockHasher)
    requires Linked(all, first, h)
    requires b.prevHash == if all == [] then first else all[|all| - 1].blockHash
    requires b.blockHash == h(b.prevHash, b.observationId, b.digest, b.timestamp)
    ensures Linked(all + [b], first, h)
  {
    forall i | 0 <= i < |all + [b]| ensures LinkedAt(all + [b], i, first, h) {
      if i < |all| {
        assert LinkedAt(all, i, first, h);
      }
    }
  }

  /** The state's chain is the window of a linked history that ends at its last hash. */
  ghost predicate WindowOf(all: seq<Block>, s: State, h: BlockHasher) {
    && s.chain == Last(all, 50)
    && Linked(all, 0, h)
    && s.lastHash == (if all == [] then 0 else all[|all| - 1].blockHash)
    && forall i | 0 <= i < |all| :: all[i].height == if i < 50 then i + 1 else 51
  }

  lemma WindowOfStep(all: seq<Block>, s: State, e: Envelope, h: BlockHasher)
    requires WindowOf(all, s, h)
    ensures WindowOf(all + [NextBlock(s, e, h)], Applied(s, e, h), h)
  {
    var b := NextBlock(s, e, h);
    ChainStep(s, e, h);
    WindowStep(all, b);
    LinkedStep(all, b, ZERO_HASH, h);
  }

  lemma FreshIsEmptyWindow(s: State, h: BlockHasher)
    requires Fresh(s)
    ensures WindowOf([], s, h)
  {
  }

  /**
   The chain over any run from a fresh projector, also through observations that throw: the retained blocks are
   the last 50 of the whole history, one for each observation; the whole history is linked from the zero hash; and
   it ends at the recorded last hash. The height of a block is its number until the window is full, and stays 51
   from then on.
   */
  lemma {:induction false} ChainIsLinkedWindow(s: State, es: seq<Envelope>, h: BlockHasher)
    requires Fresh(s)
    ensures var all := History(s, es, h);
            && WindowOf(all, Fold(s, es, h), h)
            && |all| == |es|
            && forall i | 0 <= i < |all| :: all[i].observationId == es[i].id && all[i].digest == es[i].digest
  {
    hide WindowOf, Applied;
    if es == [] {
      FreshIsEmptyWindow(s, h);
    } else {
      var k := |es| - 1;
      ChainIsLinkedWindow(s, es[..k], h);
      WindowOfStep(History(s, es[..k], h), Fold(s, es[..k], h), es[k], h);
    }
  }

  /** Any run of consecutive blocks of a linked chain is linked from the hash before it. */
  lemma WindowIsLinked(all: seq<Block>, h: BlockHasher, from: nat)
    requires Linked(all, ZERO_HASH, h) && from <= |all|
    ensures Linked(all[from..], if from == 0 then ZERO_HASH else all[from - 1].blockHash, h)
  {
    var first := if from == 0 then ZERO_HASH else all[from - 1].blockHash;
    forall i | 0 <= i < |all[from..]| ensures LinkedAt(all[from..], i, first, h) {
      assert LinkedAt(all, from + i, ZERO_HASH, h);
    }
  }

  // ---- Attention ------------------------------------------------------------

  lemma {:induction false} AlertsMatchInvalidated(vs: seq<Verification>, repo: string, from: string, to: string)
    ensures forall a :: a in Alerts(vs, repo, from, to) <==>
              exists v :: v in vs && v.repo == repo && v.exactHead == from
                          && a == Alert("attn_stale_" + v.id, High, repo,
                                        "HEAD advanced from " + Head7(from) + " to " + Head7(to))
  {
    if vs != [] {
      ShortIsHead7(from);
      ShortIsHead7(to);
      hide Short, Head7;
      var k := |vs| - 1;
      AlertsMatchInvalidated(vs[..k], repo, from, to);
      assert vs == vs[..k] + [vs[k]];
    }
  }

  /**
   The attention queue after an observation: all of the old alerts, and one new alert for each verification bound
   to the head that moved away; sorted by weight, unless the observation threw.
   */
  lemma AttentionAfterObservation(s: State, e: Envelope, h: BlockHasher)
    ensures var q := Applied(s, e, h).attention;
            && (!Throws(e) ==> forall i, j | 0 <= i < j < |q| :: NoLessUrgent(q[i].priority, q[j].priority))
            && multiset(q) == multiset(s.attention) + multiset(NewAlerts(s, e))
  {
    hide SortBy, Heavier, NoLessUrgent, NewAlerts, Tracked;
    TrackingAlerts(s, e, h);
    var q := Tracked(Chained(s, e, h), e).attention;
    SortPermutes(Heavier, q);
    HeavierIsWeakOrder(q);
    SortOrders(Heavier, q);
    OrderedIsUrgent(SortBy(Heavier, q));
  }

  /** One alert for each verification bound to the head that an observation moves away. */
  function NewAlerts(s: State, e: Envelope): seq<Alert> {
    if Moves(s, e, e.subjectId)
    then Alerts(s.verifications, e.subjectId, HeadBefore(s, e.subjectId), e.provenance.value.commitSha) else []
  }

  lemma TrackingAlerts(s: State, e: Envelope, h: BlockHasher)
    ensures Tracked(Chained(s, e, h), e).attention == s.attention + NewAlerts(s, e)
  {
    hide Alerts, StaleReason, InvalidateAll;
  }

  lemma OrderedIsUrgent(q: seq<Alert>)
    requires InOrder(Heavier, q)
    ensures forall i, j | 0 <= i < j < |q| :: NoLessUrgent(q[i].priority, q[j].priority)
  {
    forall i, j | 0 <= i < j < |q| ensures NoLessUrgent(q[i].priority, q[j].priority) {
      assert !Heavier(q[j], q[i]);
    }
  }

  /** Critical before high, high before medium, medium before low, and what has no rank last. */
  predicate NoLessUrgent(p: Priority, q: Priority) {
    match q
    case Critical => p.Critical?
    case High => p.Critical? || p.High?
    case Medium => p.Critical? || p.High? || p.Medium?
    case Low => !p.Unranked?
    case Unranked => true
  }

  lemma HeavierIsWeakOrder(xs: seq<Alert>)
    ensures WeakOrderOn(Heavier, xs)
  {
  }

  // ---- The projector --------------------------------------------------------

  class StateProjector {
    const hasher: BlockHasher
    var repositories: map<string, Repository>
    var verifications: seq<Verification>
    var agents: map<string, Agent>
    var attention: seq<Alert>
    var nodes: set<Node>
    var edges: set<Edge>
    var chain: seq<Block>
    var lastHash: Digest

    constructor (s: State, hasher: BlockHasher)
      ensures Now() == s && this.hasher == hasher
    {
      this.hasher := hasher;
      repositories, verifications, agents := s.repositories, s.verifications, s.agents;
      attention, nodes, edges, chain, lastHash := s.attention, s.nodes, s.edges, s.chain, s.lastHash;
    }

    ghost function Now(): State
      reads this
    {
      State(repositories, verifications, agents, attention, nodes, edges, chain, lastHash)
    }

    method InvalidateVerifications(repo: string, from: string, to: string)
      modifies this`verifications, this`attention
      ensures verifications == InvalidateAll(old(verifications), repo, from, to)
      ensures attention == old(attention) + Alerts(old(verifications), repo, from, to)
    {
      hide StaleReason, AlertFor;
      ghost var before := verifications;
      for i := 0 to |verifications|
        invariant |verifications| == |before|
        invariant forall k | 0 <= k < i :: verifications[k] == Invalidate(before[k], repo, from, to)
        invariant forall k | i <= k < |before| :: verifications[k] == before[k]
        invariant attention == old(attention) + Alerts(before[..i], repo, from, to)
      {
        assert before[..i + 1][..i] == before[..i];
        var v := verifications[i];
        if v.repo == repo && v.exactHead == from {
          verifications := verifications[i := v.(status := Stale, reason := StaleReason(from, to))];
          attention := attention + [AlertFor(v, from, to)];
        }
      }
      assert before[..|before|] == before;
    }

    method ExtendChain(e: Envelope)
      modifies this`chain, this`lastHash
      ensures Now() == Chained(old(Now()), e, hasher)
    {
      var prevHash := lastHash;
      lastHash := hasher(prevHash, e.id, e.digest, e.occurredAt);
      chain := chain + [Block(|chain| + 1, e.id, e.occurredAt, prevHash, e.digest, lastHash)];
      if |chain| > WINDOW {
        chain := chain[1..];
      }
    }

    method ProjectRepository(e: Envelope) returns (ok: bool)
      modifies this`repositories, this`verifications, this`attention
      ensures ok <==> e.provenance.Some?
      ensures var s := Discovered(old(Now()), e);
              Now() == if ok then HeadMoved(s, e.subjectId, e.provenance.value.commitSha, e.occurredAt) else s
    {
      if e.subjectId !in repositories {
        var r := Repository(e.subjectId, "DISCOVERED_NEW", INITIAL_HEAD, e.occurredAt);
        repositories := repositories[e.subjectId := r];
      }
      if e.provenance.None? {
        return false;
      }
      var repo, sha := repositories[e.subjectId], e.provenance.value.commitSha;
      if sha != "" && sha != repo.headSha {
        repositories := repositories[e.subjectId := repo.(headSha := sha, updatedAt := e.occurredAt)];
        InvalidateVerifications(e.subjectId, repo.headSha, sha);
      }
      return true;
    }

    method ProjectActor(id: string, e: Envelope)
      modifies this`agents
      ensures Now() == Acted(old(Now()), id, e)
    {
      var a := if id in agents then agents[id] else Agent(id, "", Missing, {}, 0);
      var acted := Agent(a.id, e.eventType, e.occurredAt, a.activeRepos + {e.subjectId}, a.totalActions + 1);
      agents := agents[id := acted];
    }

    method DrawGraph(e: Envelope)
      modifies this`nodes, this`edges
      ensures Now() == Drawn(old(Now()), ActorId(e), e)
    {
      var subject := Node(e.subjectType, e.subjectId);
      nodes := nodes + {subject};
      if e.actor.Some? && e.actor.value.id.Some? {
        var actor := Node("Agent", e.actor.value.id.value);
        nodes := nodes + {actor};
        edges := edges + {Edge(actor, "EXECUTES", subject)};
      }
    }

    /** Throws, as `false`, on a repository observation without provenance and on an actor without an identifier. */
    method ApplyObservation(e: Envelope) returns (ok: bool)
      modifies this
      ensures !ok <==> (e.subjectType == "Repository" && e.provenance.None?)
                       || (e.actor.Some? && e.actor.value.id.None?)
      ensures Now() == Applied(old(Now()), e, hasher)
    {
      ExtendChain(e);
      if e.subjectType == "Repository" {
        ok := ProjectRepository(e);
        if !ok {
          return;
        }
      }
      if e.actor.Some? {
        if e.actor.value.id.None? {
          return false;
        }
        ProjectActor(e.actor.value.id.value, e);
      }
      DrawGraph(e);
      attention := SortBy(Heavier, attention);
      return true;
    }
  }
}
