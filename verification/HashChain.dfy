/** The audit hash chain: generation, verification and what an equal root hash proves. */
module HashChain {
  import opened Wrappers

  /** A SHA-256 hash, as the number its 64 hexadecimal digits write. */
  type Digest = nat

  const ZERO: Digest := 0
  const CHAIN_LIMIT: nat := 15

  datatype Event = Event(id: string, kind: string, actor: Option<string>, repo: Option<string>, createdAt: string)

  datatype Payload = Payload(
    index: int, eventId: string, kind: string, actor: Option<string>, repo: Option<string>, timestamp: string,
    prevHash: Digest)

  datatype Block = Block(index: int, payload: Payload, hash: Digest, prevHash: Digest, verified: bool)

  /** Serialise, then hash. */
  type Hasher = Payload -> Digest

  /** The idealisation under which the chain is evidence: no collisions, and nothing hashes to zero. */
  ghost predicate Ideal(h: Hasher) {
    && (forall p, q :: h(p) == h(q) ==> p == q)
    && (forall p :: h(p) != ZERO)
  }

  function PayloadOf(e: Event, index: int, prevHash: Digest): Payload {
    Payload(index, e.id, e.kind, e.actor, e.repo, e.createdAt, prevHash)
  }

  /** The hash block `i` must name: its predecessor's, or zero for the first. */
  function Expected(chain: seq<Block>, i: nat): Digest
    requires i <= |chain|
  {
    if i == 0 then ZERO else chain[i - 1].hash
  }

  function Extended(chain: seq<Block>, e: Event, h: Hasher): seq<Block> {
    var prevHash := Expected(chain, |chain|);
    var p := PayloadOf(e, |chain|, prevHash);
    chain + [Block(|chain|, p, h(p), prevHash, true)]
  }

  /** The chain of the first 15 events. */
  function Generate(events: seq<Event>, h: Hasher): seq<Block> {
    if events == [] then []
    else
      var earlier := Generate(events[..|events| - 1], h);
      if |events| > CHAIN_LIMIT then earlier else Extended(earlier, events[|events| - 1], h)
  }

  // ---- Verification ---------------------------------------------------------

  predicate LinkHolds(chain: seq<Block>, i: nat)
    requires i < |chain|
  {
    chain[i].prevHash == Expected(chain, i)
  }

  predicate ContentHolds(chain: seq<Block>, i: nat, h: Hasher)
    requires i < |chain|
  {
    h(chain[i].payload.(prevHash := Expected(chain, i))) == chain[i].hash
  }

  predicate Holds(chain: seq<Block>, i: nat, h: Hasher)
    requires i < |chain|
  {
    LinkHolds(chain, i) && ContentHolds(chain, i, h)
  }

  predicate Verifies(chain: seq<Block>, h: Hasher) {
    forall i | 0 <= i < |chain| :: Holds(chain, i, h)
  }

  datatype Audit = Intact(count: nat, root: Option<Digest>) | BrokenLink(index: nat) | Tampered(index: nat)

  /**
   The audit is exact: intact if and only if every block holds, else the first block that does not, with what is
   wrong with it.
   */
  ghost predicate IsAudit(chain: seq<Block>, h: Hasher, a: Audit) {
    match a
    case Intact(count, root) =>
      && Verifies(chain, h) && count == |chain|
      && root == if chain == [] then None else Some(chain[|chain| - 1].hash)
    case BrokenLink(k) =>
      k < |chain| && (forall i | 0 <= i < k :: Holds(chain, i, h)) && !LinkHolds(chain, k)
    case Tampered(k) =>
      k < |chain| && (forall i | 0 <= i < k :: Holds(chain, i, h)) && LinkHolds(chain, k) && !ContentHolds(chain, k, h)
  }

  lemma AuditIsUnique(chain: seq<Block>, h: Hasher, a: Audit, b: Audit)
    requires IsAudit(chain, h, a) && IsAudit(chain, h, b)
    ensures a == b
  {
    var i, j := AuditIndex(chain, a), AuditIndex(chain, b);
    assert i < |chain| ==> !Holds(chain, i, h);
    assert j < |chain| ==> !Holds(chain, j, h);
  }

  /** Where an audit stopped. */
  function AuditIndex(chain: seq<Block>, a: Audit): nat {
    match a
    case Intact(_, _) => |chain|
    case BrokenLink(k) => k
    case Tampered(k) => k
  }

  method VerifyChain(chain: seq<Block>, h: Hasher) returns (a: Audit)
    ensures IsAudit(chain, h, a)
  {
    if chain == [] {
      return Intact(0, None);
    }
    var expected := ZERO;
    for i := 0 to |chain|
      invariant expected == Expected(chain, i)
      invariant forall j | 0 <= j < i :: Holds(chain, j, h)
    {
      if chain[i].prevHash != expected {
        return BrokenLink(i);
      }
      if h(chain[i].payload.(prevHash := expected)) != chain[i].hash {
        return Tampered(i);
      }
      expected := chain[i].hash;
    }
    return Intact(|chain|, Some(chain[|chain| - 1].hash));
  }

  method GenerateChain(events: seq<Event>, h: Hasher) returns (chain: seq<Block>)
    ensures chain == Generate(events, h)
    ensures Verifies(chain, h)
    ensures |chain| == (if |events| < 15 then |events| else 15)
  {
    hide Verifies, Extended;
    chain := [];
    var prevHash := ZERO;
    var n := if |events| < CHAIN_LIMIT then |events| else CHAIN_LIMIT;
    for i := 0 to n
      invariant |chain| == i
      invariant chain == Generate(events[..i], h)
      invariant prevHash == Expected(chain, i)
    {
      var p := PayloadOf(events[i], i, prevHash);
      var hash := h(p);
      ExtendedExpects(chain, events[i], h, 0);
      GenerateNext(events, i, h);
      ExtendedIs(chain, events[i], h);
      chain := chain + [Block(i, p, hash, prevHash, true)];
      prevHash := hash;
    }
    GenerateStops(events, n, h);
    GeneratedChainVerifies(events, h);
  }

  lemma ExtendedIs(chain: seq<Block>, e: Event, h: Hasher)
    ensures var prevHash := Expected(chain, |chain|);
            var p := PayloadOf(e, |chain|, prevHash);
            Extended(chain, e, h) == chain + [Block(|chain|, p, h(p), prevHash, true)]
  {
  }

  lemma GenerateNext(events: seq<Event>, i: nat, h: Hasher)
    requires i < |events| && i < CHAIN_LIMIT
    ensures Generate(events[..i + 1], h) == Extended(Generate(events[..i], h), events[i], h)
  {
    hide Extended;
    assert events[..i + 1][..i] == events[..i];
  }

  lemma {:induction false} GenerateStops(events: seq<Event>, n: nat, h: Hasher)
    requires n == if |events| < CHAIN_LIMIT then |events| else CHAIN_LIMIT
    ensures Generate(events, h) == Generate(events[..n], h)
    decreases |events|
  {
    if |events| > CHAIN_LIMIT {
      var shorter := events[..|events| - 1];
      GenerateStops(shorter, n, h);
      assert shorter[..n] == events[..n];
    } else {
      assert events[..n] == events;
    }
  }

  lemma ExtendedExpects(chain: seq<Block>, e: Event, h: Hasher, i: nat)
    requires i <= |chain|
    ensures |Extended(chain, e, h)| == |chain| + 1 && Expected(Extended(chain, e, h), i) == Expected(chain, i)
    ensures Extended(chain, e, h)[..|chain|] == chain
    ensures Extended(chain, e, h)[|chain|].payload == PayloadOf(e, |chain|, Expected(chain, |chain|))
    ensures Expected(Extended(chain, e, h), |chain| + 1) == h(Extended(chain, e, h)[|chain|].payload)
  {
  }

  lemma ExtendedVerifies(chain: seq<Block>, e: Event, h: Hasher)
    requires Verifies(chain, h)
    ensures Verifies(Extended(chain, e, h), h)
  {
    var longer := Extended(chain, e, h);
    forall i | 0 <= i < |longer| ensures Holds(longer, i, h) {
      ExtendedExpects(chain, e, h, i);
      if i < |chain| {
        assert Holds(chain, i, h);
      }
    }
  }

  predicate Records(chain: seq<Block>, events: seq<Event>, i: nat)
    requires i < |chain| <= |events|
  {
    var p, e := chain[i].payload, events[i];
    && p.index == i && p.eventId == e.id && p.kind == e.kind && p.actor == e.actor && p.repo == e.repo
    && p.timestamp == e.createdAt && p.prevHash == (if i == 0 then 0 else chain[i - 1].hash)
    && chain[i].index == i && chain[i].verified
  }

  /** Every generated chain verifies, and records the first 15 events in order. */
  lemma {:induction false} GeneratedChainVerifies(events: seq<Event>, h: Hasher)
    ensures var chain := Generate(events, h);
            && Verifies(chain, h)
            && |chain| == (if |events| < 15 then |events| else 15)
            && forall i | 0 <= i < |chain| :: Records(chain, events, i)
  {
    hide Verifies, Extended, Expected, Records;
    if events == [] {
      EmptyVerifies(h);
    } else {
      var earlier := events[..|events| - 1];
      assert events == earlier + [events[|events| - 1]];
      GeneratedChainVerifies(earlier, h);
      var before, chain := Generate(earlier, h), Generate(events, h);
      if |events| <= CHAIN_LIMIT {
        var e := events[|before|];
        ExtendedVerifies(before, e, h);
        ExtendedExpects(before, e, h, 0);
        forall i | 0 <= i < |chain| ensures Records(chain, events, i) {
          if i < |before| {
            EarlierIsRecorded(before, e, h, earlier, i);
          } else {
            LastIsRecorded(before, e, h, events);
          }
        }
      } else {
        forall i | 0 <= i < |chain| ensures Records(chain, events, i) {
          RecordsAmongMore(before, earlier, events[|events| - 1], i);
        }
      }
    }
  }

  lemma RecordsAmongMore(chain: seq<Block>, events: seq<Event>, e: Event, i: nat)
    requires i < |chain| <= |events| && Records(chain, events, i)
    ensures Records(chain, events + [e], i)
  {
  }

  lemma EarlierIsRecorded(chain: seq<Block>, e: Event, h: Hasher, events: seq<Event>, i: nat)
    requires i < |chain| <= |events| && Records(chain, events, i)
    ensures Records(Extended(chain, e, h), events + [e], i)
  {
  }

  lemma LastIsRecorded(chain: seq<Block>, e: Event, h: Hasher, events: seq<Event>)
    requires |chain| < |events| && events[|chain|] == e
    ensures Records(Extended(chain, e, h), events, |chain|)
  {
  }

  lemma EmptyVerifies(h: Hasher)
    ensures Verifies([], h)
  {
  }

  // ---- Tamper evidence ------------------------------------------------------

  /** A payload without the field that verification overwrites. */
  function Content(p: Payload): Payload {
    p.(prevHash := ZERO)
  }

  lemma PrefixVerifies(chain: seq<Block>, h: Hasher, n: nat)
    requires Verifies(chain, h) && n <= |chain|
    ensures Verifies(chain[..n], h)
  {
    forall i | 0 <= i < n
      ensures Holds(chain[..n], i, h)
    {
      assert Holds(chain, i, h);
      assert Expected(chain[..n], i) == Expected(chain, i);
    }
  }

  lemma RootIsZeroIff(chain: seq<Block>, h: Hasher)
    requires Ideal(h) && Verifies(chain, h)
    ensures Expected(chain, |chain|) == ZERO <==> chain == []
  {
    if chain != [] {
      assert Holds(chain, |chain| - 1, h);
    }
  }

  /**
   An equal root hash proves an equal chain: two chains that verify and end in the same hash have the same length,
   and the same content, links and hashes in every block.
   */
  lemma {:induction false} EqualRootsEqualChains(a: seq<Block>, b: seq<Block>, h: Hasher)
    requires Ideal(h) && Verifies(a, h) && Verifies(b, h)
    requires Expected(a, |a|) == Expected(b, |b|)
    ensures |a| == |b|
    ensures forall i | 0 <= i < |a| ::
              && Content(a[i].payload) == Content(b[i].payload)
              && a[i].prevHash == b[i].prevHash && a[i].hash == b[i].hash
    decreases |a|
  {
    hide Verifies, Expected;
    RootIsZeroIff(a, h);
    RootIsZeroIff(b, h);
    if a != [] {
      var m, n := |a| - 1, |b| - 1;
      LastBlocksAgree(a, b, h);
      PrefixVerifies(a, h, m);
      PrefixVerifies(b, h, n);
      EqualRootsEqualChains(a[..m], b[..n], h);
      assert forall i | 0 <= i < m :: a[..m][i] == a[i] && b[..n][i] == b[i];
    }
  }

  lemma LastBlocksAgree(a: seq<Block>, b: seq<Block>, h: Hasher)
    requires Ideal(h) && Verifies(a, h) && Verifies(b, h) && a != [] && b != []
    requires Expected(a, |a|) == Expected(b, |b|)
    ensures var m, n := |a| - 1, |b| - 1;
            && Content(a[m].payload) == Content(b[n].payload)
            && a[m].prevHash == b[n].prevHash && a[m].hash == b[n].hash
            && Expected(a[..m], m) == Expected(b[..n], n)
  {
    var m, n := |a| - 1, |b| - 1;
    assert Holds(a, m, h) && Holds(b, n, h);
    var p, q := a[m].payload.(prevHash := Expected(a, m)), b[n].payload.(prevHash := Expected(b, n));
    assert h(p) == h(q);
    assert p == q;
    assert Content(p) == Content(a[m].payload) && Content(q) == Content(b[n].payload);
    assert p.prevHash == Expected(a, m) && q.prevHash == Expected(b, n);
    assert Expected(a[..m], m) == Expected(a, m) && Expected(b[..n], n) == Expected(b, n);
  }

  /**
   An edited block is found, and found in its place: rewriting what block `k` records makes the audit report block
   `k`.
   */
  lemma EditIsLocated(chain: seq<Block>, h: Hasher, k: nat, p: Payload, a: Audit)
    requires Ideal(h) && Verifies(chain, h) && k < |chain|
    requires Content(p) != Content(chain[k].payload)
    requires IsAudit(chain[k := chain[k].(payload := p)], h, a)
    ensures a == Tampered(k)
  {
    var edited := chain[k := chain[k].(payload := p)];
    forall i | 0 <= i < k
      ensures Holds(edited, i, h)
    {
      assert Holds(chain, i, h);
      assert Expected(edited, i) == Expected(chain, i);
    }
    assert Holds(chain, k, h);
    var e := Expected(chain, k);
    assert Expected(edited, k) == e;
    assert Content(p.(prevHash := e)) == Content(p);
    assert Content(chain[k].payload.(prevHash := e)) == Content(chain[k].payload);
    assert !ContentHolds(edited, k, h);
    AuditIsUnique(edited, h, a, Tampered(k));
  }

  function Recorded(events: seq<Event>): seq<Event> {
    if |events| > CHAIN_LIMIT then events[..CHAIN_LIMIT] else events
  }

  /** The root of a generated chain stands for its events: the same root means the same first 15 events. */
  lemma EqualRootsEqualEvents(a: seq<Event>, b: seq<Event>, h: Hasher)
    requires Ideal(h)
    ensures var x, y := Generate(a, h), Generate(b, h);
            Expected(x, |x|) == Expected(y, |y|) <==> Recorded(a) == Recorded(b)
  {
    hide Verifies, Expected, Generate;
    var x, y := Generate(a, h), Generate(b, h);
    GeneratedChainVerifies(a, h);
    GeneratedChainVerifies(b, h);
    GenerateStops(a, |x|, h);
    GenerateStops(b, |y|, h);
    if Expected(x, |x|) == Expected(y, |y|) {
      EqualRootsEqualChains(x, y, h);
      forall i | 0 <= i < |x| ensures a[i] == b[i] {
        assert Records(x, a, i) && Records(y, b, i);
        assert Content(x[i].payload) == Content(y[i].payload);
      }
      assert Recorded(a) == a[..|x|] && Recorded(b) == b[..|x|];
    }
    if Recorded(a) == Recorded(b) {
      assert a[..|x|] == b[..|y|];
    }
  }
}
