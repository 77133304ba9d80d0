/**
 The evidence-gated autonomy controller (packages/egac/src/index.js): sensitivities calibrated by Wilson's lower
 bound, Bayesian updating in odds form, a product bound on the false completion rate, and a threshold decision.
 Numbers are exact reals; reported figures are rounded the way `toFixed` rounds them.
 */
module Egac {
  import opened Wrappers
  import opened RealFacts
  import opened WilsonInterval
  import Text

  const Z95 := 1.95996
  const EPSILON := 0.0000000001
  const CALIBRATION_MINIMUM := 10

  datatype TierId = Tier0 | Tier1 | Tier2 | Tier3 | Tier4 | Tier5 | Tier6 | Unlisted(name: string)
  datatype Evidence = Evidence(tier: TierId, passed: bool)
  datatype Plane = Governance | Execution | Agents | Experience | Infrastructure | OtherPlane(name: string)
  datatype Verdict = HaltAndEscalate | HumanReview | AutonomousExecution

  function ListedSensitivity(t: TierId): real {
    match t
    case Tier0 => 0.10
    case Tier1 => 0.45
    case Tier2 => 1.00
    case Tier3 => 0.95
    case Tier4 => 0.90
    case Tier5 => 1.00
    case Tier6 => 0.98
    case Unlisted(_) => 0.5
  }

  function Specificity(t: TierId): real {
    match t
    case Tier0 => 0.95
    case Tier1 => 0.90
    case Unlisted(_) => 0.95
    case _ => 1.00
  }

  // ---- Calibration ----------------------------------------------------------

  datatype Tally = Tally(passes: nat, total: nat)
  datatype Outcome = Outcome(tier: TierId, detected: bool)
  type Calibration = map<TierId, Tally>

  function Uncalibrated(): Calibration {
    map[Tier0 := Tally(0, 0), Tier1 := Tally(0, 0), Tier2 := Tally(0, 0), Tier3 := Tally(0, 0),
        Tier4 := Tally(0, 0), Tier5 := Tally(0, 0), Tier6 := Tally(0, 0)]
  }

  function TallyOf(calibration: Calibration, t: TierId): Tally {
    if t in calibration then calibration[t] else Tally(0, 0)
  }

  function Record(calibration: Calibration, o: Outcome): Calibration {
    var before := TallyOf(calibration, o.tier);
    calibration[o.tier := Tally(before.passes + (if o.detected then 1 else 0), before.total + 1)]
  }

  /** The calibration after a whole history of recorded outcomes. */
  function Recorded(history: seq<Outcome>): Calibration {
    if history == [] then Uncalibrated()
    else Record(Recorded(history[..|history| - 1]), history[|history| - 1])
  }

  lemma RecordedAppend(history: seq<Outcome>, o: Outcome)
    ensures Recorded(history + [o]) == Record(Recorded(history), o)
  {
    assert (history + [o])[..|history|] == history;
  }

  function RecordsOf(history: seq<Outcome>, t: TierId): seq<Outcome> {
    if history == [] then []
    else
      var rest, o := RecordsOf(history[..|history| - 1], t), history[|history| - 1];
      if o.tier == t then rest + [o] else rest
  }

  function Detections(records: seq<Outcome>): (n: nat)
    ensures n <= |records|
  {
    if records == [] then 0
    else Detections(records[..|records| - 1]) + if records[|records| - 1].detected then 1 else 0
  }

  lemma RecordTallies(calibration: Calibration, o: Outcome, t: TierId)
    ensures var before := TallyOf(calibration, t);
            TallyOf(Record(calibration, o), t) ==
            if o.tier == t then Tally(before.passes + (if o.detected then 1 else 0), before.total + 1) else before
  {
  }

  lemma DetectionsAppend(records: seq<Outcome>, o: Outcome)
    ensures Detections(records + [o]) == Detections(records) + if o.detected then 1 else 0
  {
    assert (records + [o])[..|records|] == records;
  }

  /** A tier's tally counts exactly its own records, whatever was recorded for other tiers in between. */
  lemma {:induction false} TallyCountsOwnRecords(history: seq<Outcome>, t: TierId)
    ensures var own := RecordsOf(history, t);
            TallyOf(Recorded(history), t) == Tally(Detections(own), |own|)
  {
    if history != [] {
      var earlier, o := history[..|history| - 1], history[|history| - 1];
      TallyCountsOwnRecords(earlier, t);
      RecordTallies(Recorded(earlier), o, t);
      if o.tier == t {
        DetectionsAppend(RecordsOf(earlier, t), o);
      }
    }
  }

  // ---- Estimates ------------------------------------------------------------

  predicate Calibrated(calibration: Calibration, t: TierId) {
    TallyOf(calibration, t).total >= CALIBRATION_MINIMUM
  }

  function Sensitivity(calibration: Calibration, root: real -> real, t: TierId): real {
    if Calibrated(calibration, t) then
      var tally := TallyOf(calibration, t);
      Wilson(tally.passes, tally.total, Z95, root).low
    else
      ListedSensitivity(t)
  }

  /** The sensitivities in force; the results below are about every such assignment of probabilities to tiers. */
  type Sensitivities = TierId -> real

  function InForce(calibration: Calibration, root: real -> real): Sensitivities {
    t => Sensitivity(calibration, root, t)
  }

  ghost predicate Probabilities(s: Sensitivities) {
    forall t: TierId :: 0.0 <= s(t) <= 1.0
  }

  /**
   Whatever was recorded, a sensitivity is a probability; a tier with fewer than ten records keeps its listed one,
   and a tier with ten or more is never trusted completely again.
   */
  lemma HistoryInForce(history: seq<Outcome>, root: real -> real, t: TierId)
    requires IsRoot(root)
    ensures var s := InForce(Recorded(history), root)(t);
            && 0.0 <= s <= 1.0
            && (if |RecordsOf(history, t)| < 10 then s == ListedSensitivity(t) else s < 1.0)
  {
    TallyCountsOwnRecords(history, t);
  }

  /** A calibrated tier that detected every time is trusted for n of n + 3.8414... trials, by the interval at 95%. */
  lemma FlawlessRecord(history: seq<Outcome>, root: real -> real, t: TierId)
    requires IsRoot(root) && |RecordsOf(history, t)| >= 10
    requires Detections(RecordsOf(history, t)) == |RecordsOf(history, t)|
    ensures var n := |RecordsOf(history, t)| as real;
            InForce(Recorded(history), root)(t) * (n + 1.95996 * 1.95996) == n
  {
    hide Recorded, RecordsOf, Detections, Wilson;
    TallyCountsOwnRecords(history, t);
    FlawlessLow(|RecordsOf(history, t)|, Z95, root);
  }

  lemma HistoryGivesProbabilities(history: seq<Outcome>, root: real -> real)
    requires IsRoot(root)
    ensures Probabilities(InForce(Recorded(history), root))
  {
    forall t: TierId ensures 0.0 <= InForce(Recorded(history), root)(t) <= 1.0 {
      HistoryInForce(history, root, t);
    }
  }

  // ---- The bound on the false completion rate -------------------------------

  function MissRates(s: Sensitivities): TierId -> real {
    t => 1.0 - s(t)
  }

  /** The exact bound: the chance that every verifier of the gate misses a defect. */
  function MissBound(s: Sensitivities, tiers: seq<TierId>): real {
    Product(MissRates(s), tiers)
  }

  lemma MissBoundInUnit(s: Sensitivities, tiers: seq<TierId>)
    requires Probabilities(s)
    ensures 0.0 <= MissBound(s, tiers) <= 1.0
  {
    ProductInUnit(MissRates(s), tiers);
  }

  /**
   The bound is exactly zero iff the gate contains a tier listed with sensitivity 1 that still has fewer than ten
   calibration records, whatever the history of calibrations was: the tenth record ends the guarantee for good.
   */
  lemma ProvableZeroIff(history: seq<Outcome>, root: real -> real, tiers: seq<TierId>)
    requires IsRoot(root)
    ensures MissBound(InForce(Recorded(history), root), tiers) == 0.0
            <==> exists t :: t in tiers && ListedSensitivity(t) == 1.0 && |RecordsOf(history, t)| < 10
  {
    var s := InForce(Recorded(history), root);
    ProductZeroIff(MissRates(s), tiers);
    forall t: TierId
      ensures MissRates(s)(t) == 0.0 <==> ListedSensitivity(t) == 1.0 && |RecordsOf(history, t)| < 10
    {
      HistoryInForce(history, root, t);
    }
  }

  /** The order of the gate's tiers does not matter, and adding tiers anywhere never raises the bound. */
  lemma MoreTiersNeverRaiseBound(s: Sensitivities, tiers: seq<TierId>, more: seq<TierId>, all: seq<TierId>)
    requires Probabilities(s) && multiset(all) == multiset(tiers) + multiset(more)
    ensures MissBound(s, all) == MissBound(s, tiers) * MissBound(s, more)
    ensures MissBound(s, all) <= MissBound(s, tiers)
  {
    hide Product;
    assert multiset(tiers + more) == multiset(tiers) + multiset(more);
    ProductPermutes(MissRates(s), all, tiers + more);
    ProductConcat(MissRates(s), tiers, more);
    MissBoundInUnit(s, tiers);
    MissBoundInUnit(s, more);
    var both := Shrink(MissBound(s, tiers), MissBound(s, more));
  }

  /**
   Replacing one tier of a gate by another helps iff the new one is at least as sensitive, or nothing is at stake.
   */
  lemma ReplacementHelpsIff(s: Sensitivities, before: seq<TierId>, old': TierId, new': TierId, after: seq<TierId>)
    requires Probabilities(s)
    ensures MissBound(s, before + [new'] + after) <= MissBound(s, before + [old'] + after)
            <==> MissBound(s, before + after) == 0.0 || s(new') >= s(old')
  {
    hide Product;
    var f, rest := MissRates(s), MissBound(s, before + after);
    MissBoundInUnit(s, before + after);
    ProductWithout(f, before, new', after);
    ProductWithout(f, before, old', after);
    FactorOrder(rest, f(new'), f(old'), MissBound(s, before + [new'] + after), MissBound(s, before + [old'] + after));
  }

  lemma FactorOrder(rest: real, a: real, b: real, x: real, y: real)
    requires rest >= 0.0 && x == rest * a && y == rest * b
    ensures x <= y <==> rest == 0.0 || a <= b
  {
    if rest > 0.0 && a > b {
      var c := Positive(rest, a - b);
    } else if rest > 0.0 {
      var c := NonNegative(rest, b - a);
    }
  }

  /** The documentation's tier order is not the order of sensitivities: a receipt is worse than a test. */
  lemma HigherTierCanRaiseBound(s: Sensitivities)
    requires s(Tier2) == ListedSensitivity(Tier2) && s(Tier3) == ListedSensitivity(Tier3)
    ensures MissBound(s, [Tier2]) < MissBound(s, [Tier3])
  {
    ProductOne(MissRates(s), Tier2);
    ProductOne(MissRates(s), Tier3);
  }

  // ---- Rounding -------------------------------------------------------------

  /** `Number(x.toFixed(d))` for non-negative `x`, with `scale` for ten to the power `d`. */
  function Round(x: real, scale: real): real
    requires scale > 0.0
  {
    (x * scale + 0.5).Floor as real / scale
  }

  function Round8(x: real): real {
    Round(x, 100000000.0)
  }

  function Round6(x: real): real {
    Round(x, 1000000.0)
  }

  /** Rounding keeps order and the unit interval, and shows zero exactly below half a unit of the last digit. */
  lemma Round8Facts(x: real, y: real)
    requires 0.0 <= x <= y <= 1.0
    ensures 0.0 <= Round8(x) <= Round8(y) <= 1.0
    ensures Round8(x) == 0.0 <==> x < 0.000000005
    ensures x - 0.000000005 < Round8(x) <= x + 0.000000005
  {
    var scale := 100000000.0;
    var a, b := x * scale + 0.5, y * scale + 0.5;
    assert 0 <= a.Floor <= b.Floor <= 100000000;
  }

  /** Reported figures are whole numbers of units of the eighth or sixth decimal, and off by at most half a unit. */
  lemma RoundsToDecimals(x: real) returns (n8: int, n6: int)
    ensures Round8(x) * 100000000.0 == n8 as real && Round6(x) * 1000000.0 == n6 as real
    ensures x - 0.000000005 < Round8(x) <= x + 0.000000005
    ensures x - 0.0000005 < Round6(x) <= x + 0.0000005
  {
    hide Round;
    n8 := RoundsTo(x, 100000000.0);
    n6 := RoundsTo(x, 1000000.0);
  }

  lemma RoundsTo(x: real, scale: real) returns (n: int)
    requires scale > 0.0
    ensures Round(x, scale) * scale == n as real
    ensures x * scale - 0.5 < n as real <= x * scale + 0.5
  {
    n := (x * scale + 0.5).Floor;
    var q := n as real / scale;
    assert q * scale == n as real;
  }

  // ---- Bayesian updating ----------------------------------------------------

  function Prior(plane: Plane): (p: real)
    ensures 0.0 < p < 1.0
  {
    match plane
    case Governance => 0.42
    case Execution => 0.30
    case Agents => 0.24
    case Experience => 0.14
    case Infrastructure => 0.18
    case OtherPlane(_) => 0.15
  }

  function OddsOf(p: real): real
    requires p < 1.0
  {
    p / (1.0 - p)
  }

  function ProbabilityOf(odds: real): real
    requires odds >= 0.0
  {
    odds / (1.0 + odds)
  }

  /** How likely the piece of evidence is when there is a defect. */
  function GivenDefect(s: Sensitivities): Evidence -> real {
    (v: Evidence) => if v.passed then 1.0 - s(v.tier) else Max(EPSILON, s(v.tier))
  }

  /** How likely the piece of evidence is when there is none. */
  function GivenNone(): Evidence -> real {
    (v: Evidence) => if v.passed then Max(EPSILON, Specificity(v.tier)) else Max(EPSILON, 1.0 - Specificity(v.tier))
  }

  function LikelihoodRatio(s: Sensitivities, v: Evidence): real {
    if v.passed then
      (1.0 - s(v.tier)) / Max(EPSILON, Specificity(v.tier))
    else
      Max(EPSILON, s(v.tier)) / Max(EPSILON, 1.0 - Specificity(v.tier))
  }

  function Ratios(s: Sensitivities): Evidence -> real {
    v => LikelihoodRatio(s, v)
  }

  lemma RatioTimesGivenNone(s: Sensitivities, v: Evidence)
    ensures Ratios(s)(v) * GivenNone()(v) == GivenDefect(s)(v)
    ensures GivenNone()(v) > 0.0
  {
  }

  lemma RatiosNonNegative(s: Sensitivities, chain: seq<Evidence>)
    requires Probabilities(s)
    ensures forall v <- chain :: 0.0 <= Ratios(s)(v)
    ensures 0.0 <= Product(Ratios(s), chain)
  {
    forall v | v in chain ensures 0.0 <= Ratios(s)(v) {
      RatioTimesGivenNone(s, v);
      DivideOrder(GivenDefect(s)(v), GivenNone()(v), 0.0);
    }
    ProductNonNegative(Ratios(s), chain);
  }

  lemma OddsNonNegative(p: real)
    requires 0.0 <= p < 1.0
    ensures OddsOf(p) >= 0.0
  {
    DivideOrder(p, 1.0 - p, 0.0);
  }

  /** The probability of a defect after a chain of evidence, as the sequential update computes it. */
  function PosteriorOdds(s: Sensitivities, prior: real, chain: seq<Evidence>): real
    requires prior < 1.0
  {
    OddsOf(prior) * Product(Ratios(s), chain)
  }

  lemma PosteriorOddsNonNegative(s: Sensitivities, prior: real, chain: seq<Evidence>)
    requires Probabilities(s) && 0.0 <= prior < 1.0
    ensures PosteriorOdds(s, prior, chain) >= 0.0
  {
    OddsNonNegative(prior);
    RatiosNonNegative(s, chain);
    var c := NonNegative(OddsOf(prior), Product(Ratios(s), chain));
  }

  ghost function Posterior(s: Sensitivities, prior: real, chain: seq<Evidence>): real
    requires Probabilities(s) && 0.0 <= prior < 1.0
  {
    PosteriorOddsNonNegative(s, prior, chain);
    ProbabilityOf(PosteriorOdds(s, prior, chain))
  }

  lemma ProbabilityBelowOne(odds: real)
    requires odds >= 0.0
    ensures 0.0 <= ProbabilityOf(odds) < 1.0
    ensures ProbabilityOf(odds) * (1.0 + odds) == odds
  {
    DivideOrder(odds, 1.0 + odds, 0.0);
    DivideOrder(odds, 1.0 + odds, 1.0);
  }

  lemma OddsOfProbability(odds: real)
    requires odds >= 0.0
    ensures ProbabilityOf(odds) < 1.0 && OddsOf(ProbabilityOf(odds)) == odds
  {
    ProbabilityBelowOne(odds);
    var p := ProbabilityOf(odds);
    var o := OddsOf(p);
    assert o * (1.0 - p) == p;
    assert (o * (1.0 - p)) * (1.0 + odds) == o * ((1.0 - p) * (1.0 + odds));
    assert (1.0 - p) * (1.0 + odds) == 1.0 + odds - p * (1.0 + odds) == 1.0;
  }

  lemma {:induction false} RatiosAreQuotient(s: Sensitivities, chain: seq<Evidence>)
    ensures Product(GivenNone(), chain) > 0.0
    ensures Product(Ratios(s), chain) * Product(GivenNone(), chain) == Product(GivenDefect(s), chain)
  {
    hide Product;
    if chain == [] {
      ProductNone(GivenNone());
      ProductNone(GivenDefect(s));
      ProductNone(Ratios(s));
    } else {
      var rest, v := chain[..|chain| - 1], chain[|chain| - 1];
      assert chain == rest + [v];
      RatiosAreQuotient(s, rest);
      RatioTimesGivenNone(s, v);
      ProductAppend(GivenNone(), rest, v);
      ProductAppend(GivenDefect(s), rest, v);
      ProductAppend(Ratios(s), rest, v);
      QuotientOfProducts(Product(Ratios(s), rest), Product(GivenNone(), rest), Ratios(s)(v), GivenNone()(v));
    }
  }

  lemma QuotientOfProducts(ratio: real, n: real, x: real, y: real)
    requires n > 0.0 && y > 0.0
    ensures n * y > 0.0 && (ratio * x) * (n * y) == (ratio * n) * (x * y)
  {
    var c := Positive(n, y);
    Interchange(ratio, x, n, y);
  }

  lemma Interchange(a: real, b: real, c: real, d: real)
    ensures (a * b) * (c * d) == (a * c) * (b * d)
  {
  }

  /**
   The update is Bayes' rule: the posterior is the prior weighted by how likely the whole chain is with and
   without a defect.
   */
  lemma UpdateIsBayesRule(s: Sensitivities, prior: real, chain: seq<Evidence>)
    requires Probabilities(s) && 0.0 <= prior < 1.0
    ensures var d, n := Product(GivenDefect(s), chain), Product(GivenNone(), chain);
            prior * d + (1.0 - prior) * n > 0.0
            && Posterior(s, prior, chain) == prior * d / (prior * d + (1.0 - prior) * n)
  {
    hide Product;
    var d, n := Product(GivenDefect(s), chain), Product(GivenNone(), chain);
    RatiosAreQuotient(s, chain);
    PosteriorOddsNonNegative(s, prior, chain);
    var k := Positive(1.0 - prior, n);
    BayesAlgebra(prior, Product(Ratios(s), chain), d, n, OddsOf(prior), PosteriorOdds(s, prior, chain));
  }

  lemma BayesAlgebra(prior: real, ratio: real, d: real, n: real, before: real, odds: real)
    requires 0.0 <= prior < 1.0 && n > 0.0 && ratio * n == d
    requires before == prior / (1.0 - prior) && odds == before * ratio && odds >= 0.0
    ensures prior * d + (1.0 - prior) * n > 0.0
    ensures odds / (1.0 + odds) == prior * d / (prior * d + (1.0 - prior) * n)
  {
    var k := Positive(1.0 - prior, n);
    assert before * (1.0 - prior) == prior;
    assert odds * k == (before * (1.0 - prior)) * (ratio * n) by {
      Interchange(before, ratio, 1.0 - prior, n);
    }
    var scaled := NonNegative(odds, k);
    assert scaled == prior * d;
    SameQuotient(odds, 1.0 + odds, k);
    assert (1.0 + odds) * k == scaled + k;
  }

  lemma SameQuotient(x: real, y: real, k: real)
    requires y > 0.0 && k > 0.0
    ensures y * k > 0.0 && x / y == (x * k) / (y * k)
  {
    var yk := Positive(y, k);
    var q := x / y;
    assert q * y == x;
    assert q * (y * k) == x * k;
    var r := (x * k) / (y * k);
    assert r * (y * k) == x * k;
    CancelFactor(q, r, y * k);
  }

  /** The posterior after a prefix is a valid prior for the rest: updating in two steps is updating at once. */
  lemma UpdatesCompose(s: Sensitivities, prior: real, first: seq<Evidence>, second: seq<Evidence>)
    requires Probabilities(s) && 0.0 <= prior < 1.0
    ensures 0.0 <= Posterior(s, prior, first) < 1.0
    ensures Posterior(s, Posterior(s, prior, first), second) == Posterior(s, prior, first + second)
  {
    hide Product;
    PosteriorOddsNonNegative(s, prior, first);
    var odds := PosteriorOdds(s, prior, first);
    ProbabilityBelowOne(odds);
    OddsOfProbability(odds);
    ProductConcat(Ratios(s), first, second);
    Associate(OddsOf(prior), Product(Ratios(s), first), Product(Ratios(s), second));
  }

  lemma EvidenceOrderDoesNotMatter(s: Sensitivities, prior: real, chain: seq<Evidence>, other: seq<Evidence>)
    requires Probabilities(s) && 0.0 <= prior < 1.0 && multiset(chain) == multiset(other)
    ensures Posterior(s, prior, chain) == Posterior(s, prior, other)
  {
    hide Product;
    ProductPermutes(Ratios(s), chain, other);
  }

  /** The tier tells more than a coin that ignores the defect. */
  predicate Informative(s: Sensitivities, t: TierId) {
    s(t) + Specificity(t) >= 1.0
  }

  /** A pass lowers the odds and a failure raises them exactly for the informative tiers. */
  lemma RatioDirectionIff(s: Sensitivities, t: TierId)
    requires Probabilities(s)
    ensures LikelihoodRatio(s, Evidence(t, true)) <= 1.0 <==> Informative(s, t)
    ensures LikelihoodRatio(s, Evidence(t, false)) >= 1.0 <==> Informative(s, t)
  {
    var c := Specificity(t);
    assert Max(EPSILON, c) == c;
    DivideOrder(1.0 - s(t), c, 1.0);
    var low := Max(EPSILON, 1.0 - c);
    DivideOrder(Max(EPSILON, s(t)), low, 1.0);
    if 1.0 - s(t) > c {
      assert ((1.0 - s(t)) / c) * c == 1.0 - s(t);
    }
    if Max(EPSILON, s(t)) >= low {
    } else {
      assert c < 1.0 && low == 1.0 - c;
    }
  }

  /**
   What evidence of an uncalibrated tier is worth: the factor by which a pass and a failure change the odds. A
   failure that a tier never reports without a defect counts ten thousand million times its sensitivity.
   */
  lemma ListedRatios(s: Sensitivities, name: string)
    requires forall t :: s(t) == ListedSensitivity(t)
    ensures var ratio := (t, passed) => LikelihoodRatio(s, Evidence(t, passed));
            && ratio(Tier0, true) == 18.0 / 19.0 && ratio(Tier0, false) == 2.0
            && ratio(Tier1, true) == 11.0 / 18.0 && ratio(Tier1, false) == 4.5
            && ratio(Tier2, true) == 0.0 && ratio(Tier2, false) == 10000000000.0
            && ratio(Tier3, true) == 0.05 && ratio(Tier3, false) == 9500000000.0
            && ratio(Tier4, true) == 0.1 && ratio(Tier4, false) == 9000000000.0
            && ratio(Tier5, true) == 0.0 && ratio(Tier5, false) == 10000000000.0
            && ratio(Tier6, true) == 0.02 && ratio(Tier6, false) == 9800000000.0
            && ratio(Unlisted(name), true) == 10.0 / 19.0 && ratio(Unlisted(name), false) == 10.0
  {
  }

  /** The odds of a defect before any evidence, and the threshold when no costs are given. */
  lemma ListedOdds(name: string)
    ensures OddsOf(Prior(Governance)) == 21.0 / 29.0 && OddsOf(Prior(Execution)) == 3.0 / 7.0
    ensures OddsOf(Prior(Agents)) == 6.0 / 19.0 && OddsOf(Prior(Experience)) == 7.0 / 43.0
    ensures OddsOf(Prior(Infrastructure)) == 9.0 / 41.0 && OddsOf(Prior(OtherPlane(name))) == 3.0 / 17.0
    ensures Threshold(CostOr(None, 19.0), CostOr(None, 1.0)) == 0.95
  {
  }

  lemma ListedTiersAreInformative(s: Sensitivities, t: TierId)
    requires s(t) == ListedSensitivity(t)
    ensures Informative(s, t)
  {
  }

  /** A calibrated tier need not be: after ten misses a failed self-assertion lowers the odds of a defect. */
  lemma MissesMakeFailureReassuring(root: real -> real)
    requires IsRoot(root)
    ensures var history := seq(10, _ => Outcome(Tier0, false));
            LikelihoodRatio(InForce(Recorded(history), root), Evidence(Tier0, false)) < 1.0
  {
    var history := seq(10, _ => Outcome(Tier0, false));
    AllMisses(history);
    TallyCountsOwnRecords(history, Tier0);
    assert Wilson(0, 10, Z95, root).low <= Proportion(0, 10);
  }

  lemma {:induction false} AllMisses(history: seq<Outcome>)
    requires forall o <- history :: o == Outcome(Tier0, false)
    ensures RecordsOf(history, Tier0) == history && Detections(history) == 0
  {
    if history != [] {
      var rest, o := history[..|history| - 1], history[|history| - 1];
      assert o in history && forall u <- rest :: u in history;
      assert history == rest + [o];
      AllMisses(rest);
    }
  }

  lemma ProbabilityOrder(a: real, b: real)
    requires a >= 0.0 && b >= 0.0
    ensures ProbabilityOf(a) <= ProbabilityOf(b) <==> a <= b
  {
    ProbabilityBelowOne(a);
    ProbabilityBelowOne(b);
    var p, q := ProbabilityOf(a), ProbabilityOf(b);
    assert (1.0 - p) * (1.0 + a) == 1.0 && (1.0 - q) * (1.0 + b) == 1.0;
    if p <= q && a > b {
      var c := NonNegative(q - p, 1.0 + b);
      var d := Positive(1.0 - p, a - b);
    } else if p > q && a <= b {
      var c := Positive(p - q, 1.0 + a);
      var d := NonNegative(1.0 - q, b - a);
    }
  }

  lemma RatioOrder(odds: real, ratio: real, after: real)
    requires odds > 0.0 && after == odds * ratio
    ensures after <= odds <==> ratio <= 1.0
    ensures after >= odds <==> ratio >= 1.0
  {
    if ratio > 1.0 {
      var c := Positive(odds, ratio - 1.0);
    } else if ratio < 1.0 {
      var c := Positive(odds, 1.0 - ratio);
    }
  }

  lemma RatioMovesProbability(odds: real, ratio: real, after: real)
    requires odds >= 0.0 && after >= 0.0 && after == odds * ratio
    ensures ProbabilityOf(after) <= ProbabilityOf(odds) <==> ratio <= 1.0 || ProbabilityOf(odds) == 0.0
    ensures ProbabilityOf(after) >= ProbabilityOf(odds) <==> ratio >= 1.0 || ProbabilityOf(odds) == 0.0
  {
    ProbabilityOrder(after, odds);
    ProbabilityOrder(odds, after);
    ProbabilityBelowOne(odds);
    if odds == 0.0 {
      assert after == 0.0;
    } else {
      assert ProbabilityOf(odds) != 0.0;
      RatioOrder(odds, ratio, after);
    }
  }

  lemma MoveByRatio(s: Sensitivities, v: Evidence, odds: real, after: real)
    requires Probabilities(s) && odds >= 0.0 && after >= 0.0 && after == odds * Ratios(s)(v)
    ensures v.passed ==>
              (ProbabilityOf(after) <= ProbabilityOf(odds) <==> Informative(s, v.tier) || ProbabilityOf(odds) == 0.0)
    ensures !v.passed ==>
              (ProbabilityOf(after) >= ProbabilityOf(odds) <==> Informative(s, v.tier) || ProbabilityOf(odds) == 0.0)
  {
    hide ProbabilityOf, LikelihoodRatio;
    RatioDirectionIff(s, v.tier);
    RatioMovesProbability(odds, LikelihoodRatio(s, v), after);
  }

  /** What one more piece of evidence does, wherever it stands in the chain. */
  lemma EvidenceMovesPosterior(s: Sensitivities, prior: real, before: seq<Evidence>, v: Evidence,
                               after: seq<Evidence>)
    requires Probabilities(s) && 0.0 <= prior < 1.0
    ensures var without, with := Posterior(s, prior, before + after), Posterior(s, prior, before + [v] + after);
            && (v.passed ==> (with <= without <==> Informative(s, v.tier) || without == 0.0))
            && (!v.passed ==> (with >= without <==> Informative(s, v.tier) || without == 0.0))
  {
    hide Product, ProbabilityOf, OddsOf;
    PosteriorOddsNonNegative(s, prior, before + after);
    PosteriorOddsNonNegative(s, prior, before + [v] + after);
    ProductWithout(Ratios(s), before, v, after);
    Associate(OddsOf(prior), Product(Ratios(s), before + after), Ratios(s)(v));
    MoveByRatio(s, v, PosteriorOdds(s, prior, before + after), PosteriorOdds(s, prior, before + [v] + after));
  }

  // ---- The decision ---------------------------------------------------------

  function VerdictOf(bound: real, pDefect: real, alpha: real): Verdict {
    if bound < alpha && pDefect < alpha then AutonomousExecution
    else if bound < 2.0 * alpha && pDefect < 2.0 * alpha then HumanReview
    else HaltAndEscalate
  }

  function Freedom(v: Verdict): nat {
    match v
    case HaltAndEscalate => 0
    case HumanReview => 1
    case AutonomousExecution => 2
  }

  ghost function Decision(s: Sensitivities, alpha: real, plane: Plane, chain: seq<Evidence>, tiers: seq<TierId>)
    : Verdict
    requires Probabilities(s)
  {
    VerdictOf(Round8(MissBound(s, tiers)), Posterior(s, Prior(plane), chain), alpha)
  }

  /** Adding verification tiers never moves the decision toward halting. */
  lemma MoreTiersNeverRestrict(s: Sensitivities, alpha: real, plane: Plane, chain: seq<Evidence>,
                               tiers: seq<TierId>, more: seq<TierId>, all: seq<TierId>)
    requires Probabilities(s) && multiset(all) == multiset(tiers) + multiset(more)
    ensures Freedom(Decision(s, alpha, plane, chain, tiers)) <= Freedom(Decision(s, alpha, plane, chain, all))
  {
    MoreTiersNeverRaiseBound(s, tiers, more, all);
    MissBoundInUnit(s, tiers);
    MissBoundInUnit(s, all);
    Round8Facts(MissBound(s, all), MissBound(s, tiers));
  }

  /** Informative evidence moves the decision only in its own direction, wherever it enters the chain. */
  lemma EvidenceMovesDecision(s: Sensitivities, alpha: real, plane: Plane, before: seq<Evidence>, v: Evidence,
                              after: seq<Evidence>, tiers: seq<TierId>)
    requires Probabilities(s) && Informative(s, v.tier)
    ensures var without := Freedom(Decision(s, alpha, plane, before + after, tiers));
            var with := Freedom(Decision(s, alpha, plane, before + [v] + after, tiers));
            if v.passed then with >= without else with <= without
  {
    EvidenceMovesPosterior(s, Prior(plane), before, v, after);
  }

  /** A pass of a completely trusted tier settles the posterior at zero, and nothing else does. */
  lemma PosteriorZeroIff(s: Sensitivities, prior: real, chain: seq<Evidence>)
    requires Probabilities(s) && 0.0 < prior < 1.0
    ensures Posterior(s, prior, chain) == 0.0 <==> exists v :: v in chain && v.passed && s(v.tier) == 1.0
  {
    hide Product;
    PosteriorOddsNonNegative(s, prior, chain);
    ProbabilityBelowOne(PosteriorOdds(s, prior, chain));
    var start := Quotient(prior, 1.0 - prior);
    ZeroFactor(start, Product(Ratios(s), chain));
    ProductZeroIff(Ratios(s), chain);
    forall v: Evidence ensures Ratios(s)(v) == 0.0 <==> v.passed && s(v.tier) == 1.0 {
      RatioZeroIff(s, v);
    }
  }

  lemma RatioZeroIff(s: Sensitivities, v: Evidence)
    requires Probabilities(s)
    ensures Ratios(s)(v) == 0.0 <==> v.passed && s(v.tier) == 1.0
  {
    RatioTimesGivenNone(s, v);
    ZeroFactor(Ratios(s)(v), GivenNone()(v));
  }

  /**
   One pass of a completely trusted tier that is also in the gate permits autonomy under every positive threshold,
   even when every other piece of evidence, of that same tier included, is a failure.
   */
  lemma OnePassingTestDecides(s: Sensitivities, alpha: real, plane: Plane, chain: seq<Evidence>, tiers: seq<TierId>,
                              t: TierId)
    requires Probabilities(s) && alpha > 0.0 && s(t) == 1.0 && t in tiers && Evidence(t, true) in chain
    ensures Decision(s, alpha, plane, chain, tiers) == AutonomousExecution
  {
    hide Product, Round, ProbabilityOf;
    PosteriorZeroIff(s, Prior(plane), chain);
    ProductZeroIff(MissRates(s), tiers);
    Round8Facts(0.0, 0.0);
    assert Evidence(t, true).passed && MissRates(s)(t) == 0.0;
  }

  /**
   Halting is possible at all iff the threshold is at most one half. Above it, which the default is, no evidence
   and no lack of verification ever halts anything.
   */
  lemma HaltIsPossibleIff(s: Sensitivities, alpha: real, plane: Plane)
    requires Probabilities(s)
    ensures alpha <= 0.5 <==> exists chain, tiers :: Decision(s, alpha, plane, chain, tiers) == HaltAndEscalate
  {
    hide Product, Round, ProbabilityOf;
    ProductNone(MissRates(s));
    Round8Facts(1.0, 1.0);
    if alpha <= 0.5 {
      assert Round8(1.0) == 1.0 by { RoundOne(); }
      assert Decision(s, alpha, plane, [], []) == HaltAndEscalate;
    } else {
      forall chain: seq<Evidence>, tiers: seq<TierId>
        ensures Decision(s, alpha, plane, chain, tiers) != HaltAndEscalate
      {
        MissBoundInUnit(s, tiers);
        Round8Facts(MissBound(s, tiers), 1.0);
        PosteriorOddsNonNegative(s, Prior(plane), chain);
        ProbabilityBelowOne(PosteriorOdds(s, Prior(plane), chain));
      }
    }
  }

  lemma RoundOne()
    ensures Round8(1.0) == 1.0
  {
    assert (1.0 * 100000000.0 + 0.5).Floor == 100000000;
  }

  /** The planes are ranked by risk, and a riskier plane is never decided more freely on the same evidence. */
  lemma RiskierPlanesAreStricter(s: Sensitivities, alpha: real, low: Plane, high: Plane, chain: seq<Evidence>,
                                 tiers: seq<TierId>)
    requires Probabilities(s) && Prior(low) <= Prior(high)
    ensures Freedom(Decision(s, alpha, high, chain, tiers)) <= Freedom(Decision(s, alpha, low, chain, tiers))
    ensures Prior(Governance) > Prior(Execution) > Prior(Agents) > Prior(Infrastructure) > Prior(Experience)
  {
    hide Product, Round, ProbabilityOf;
    RatiosNonNegative(s, chain);
    PosteriorOddsNonNegative(s, Prior(low), chain);
    PosteriorOddsNonNegative(s, Prior(high), chain);
    OddsOrder(Prior(low), Prior(high));
    ScaledUp(OddsOf(Prior(low)), OddsOf(Prior(high)), Product(Ratios(s), chain));
    ProbabilityOrder(PosteriorOdds(s, Prior(low), chain), PosteriorOdds(s, Prior(high), chain));
  }

  lemma OddsOrder(p: real, q: real)
    requires 0.0 <= p <= q < 1.0
    ensures OddsOf(p) <= OddsOf(q)
  {
    var a, b := OddsOf(p), OddsOf(q);
    assert a * (1.0 - p) == p && b * (1.0 - q) == q;
    if a > b {
      OddsNonNegative(q);
      var c := Positive(a - b, 1.0 - q);
      OddsNonNegative(p);
      var d := NonNegative(a, q - p);
    }
  }

  lemma ScaledUp(a: real, b: real, k: real)
    requires a <= b && k >= 0.0
    ensures a * k <= b * k
  {
    var c := NonNegative(b - a, k);
  }

  // ---- Self-assertion -------------------------------------------------------

  function Power(b: real, n: nat): real {
    if n == 0 then 1.0 else Power(b, n - 1) * b
  }

  lemma {:induction false} PowerAdds(b: real, m: nat, n: nat)
    ensures Power(b, m + n) == Power(b, m) * Power(b, n)
  {
    if n > 0 {
      PowerAdds(b, m, n - 1);
      Associate(Power(b, m), Power(b, n - 1), b);
    }
  }

  lemma {:induction false} PowerInUnit(b: real, n: nat)
    requires 0.0 <= b <= 1.0
    ensures 0.0 <= Power(b, n) <= 1.0
  {
    if n > 0 {
      PowerInUnit(b, n - 1);
      var c := Shrink(Power(b, n - 1), b);
    }
  }

  lemma PowerFalls(b: real, m: nat, n: nat)
    requires 0.0 <= b <= 1.0 && m <= n
    ensures Power(b, n) <= Power(b, m)
  {
    hide Power;
    PowerAdds(b, m, n - m);
    PowerInUnit(b, m);
    PowerInUnit(b, n - m);
    var c := Shrink(Power(b, m), Power(b, n - m));
  }

  lemma NineTenths()
    ensures 0.0523 <= Power(0.9, 28) && Power(0.9, 29) <= 0.0472
  {
    assert Power(0.9, 1) == 0.9;
    PowerAdds(0.9, 1, 1);
    PowerAdds(0.9, 2, 2);
    PowerAdds(0.9, 2, 1);
    PowerAdds(0.9, 4, 3);
    PowerAdds(0.9, 7, 7);
    PowerAdds(0.9, 14, 14);
    PowerAdds(0.9, 28, 1);
  }

  lemma {:induction false} SelfAssertionBound(s: Sensitivities, tiers: seq<TierId>)
    requires s(Tier0) == 0.1 && forall t <- tiers :: t == Tier0
    ensures MissBound(s, tiers) == Power(0.9, |tiers|)
  {
    if tiers != [] {
      var rest, t := tiers[..|tiers| - 1], tiers[|tiers| - 1];
      assert t in tiers && forall u <- rest :: u in tiers;
      SelfAssertionBound(s, rest);
    }
  }

  /**
   A gate of uncalibrated self-assertions: with a threshold of one in twenty it takes 29 of them to permit
   autonomy, for any repository and any chain of evidence; with the default threshold one is enough.
   */
  lemma SelfAssertionPermitsAutonomyIff(s: Sensitivities, plane: Plane, chain: seq<Evidence>, tiers: seq<TierId>)
    requires Probabilities(s) && s(Tier0) == 0.1 && forall t <- tiers :: t == Tier0
    ensures Decision(s, 1.0 / 20.0, plane, chain, tiers) == AutonomousExecution
            <==> |tiers| >= 29 && Posterior(s, Prior(plane), chain) < 1.0 / 20.0
    ensures Decision(s, 19.0 / 20.0, plane, chain, tiers) == AutonomousExecution
            <==> |tiers| >= 1 && Posterior(s, Prior(plane), chain) < 19.0 / 20.0
  {
    var n := |tiers|;
    SelfAssertionBound(s, tiers);
    PowerInUnit(0.9, n);
    Round8Facts(Power(0.9, n), Power(0.9, n));
    NineTenths();
    if n >= 29 {
      PowerFalls(0.9, 29, n);
    } else {
      PowerFalls(0.9, n, 28);
    }
    if n >= 1 {
      PowerFalls(0.9, 1, n);
      assert Power(0.9, 1) == 0.9;
    }
  }

  // ---- Costs ----------------------------------------------------------------

  /** A missing or zero option falls back to the default. */
  function CostOr(option: Option<real>, default_: real): real {
    if option.Some? && option.value != 0.0 then option.value else default_
  }

  function Threshold(falsePositive: real, falseNegative: real): real
    requires falsePositive > 0.0 && falseNegative > 0.0
  {
    falsePositive / (falsePositive + falseNegative)
  }

  lemma ThresholdGrows(cheap: real, costly: real, falseNegative: real)
    requires 0.0 < cheap <= costly && falseNegative > 0.0
    ensures 0.0 < Threshold(cheap, falseNegative) <= Threshold(costly, falseNegative) < 1.0
  {
    var a, b := Threshold(cheap, falseNegative), Threshold(costly, falseNegative);
    var sum := costly + falseNegative;
    DivideOrder(costly, sum, 1.0);
    DivideOrder(costly, sum, a);
    assert a * (cheap + falseNegative) == cheap;
    var c := Quotient(cheap, cheap + falseNegative);
    DivideOrder(cheap, cheap + falseNegative, 1.0);
    var e := NonNegative(1.0 - a, costly - cheap);
    assert a * sum == a * (cheap + falseNegative) + a * (costly - cheap);
  }

  /** The threshold works against its purpose: the costlier a defect let through, the more freely the gate decides. */
  lemma CostlierMistakesLoosenTheGate(bound: real, pDefect: real, cheap: real, costly: real, falseNegative: real)
    requires 0.0 < cheap <= costly && falseNegative > 0.0
    ensures Freedom(VerdictOf(bound, pDefect, Threshold(cheap, falseNegative)))
         <= Freedom(VerdictOf(bound, pDefect, Threshold(costly, falseNegative)))
  {
    ThresholdGrows(cheap, costly, falseNegative);
  }

  // ---- Planes ---------------------------------------------------------------

  predicate At(s: string, part: string, i: int) {
    0 <= i <= |s| - |part| && s[i..i + |part|] == part
  }

  predicate Includes(s: string, part: string) {
    exists i: int | 0 <= i <= |s| :: At(s, part, i)
  }

  predicate IncludesAny(s: string, parts: seq<string>) {
    exists k :: 0 <= k < |parts| && Includes(s, parts[k])
  }

  const GOVERNANCE_WORDS := ["governance", "trust-gateway", "contracts", "aie"]
  const EXECUTION_WORDS := ["works-execution", "sentinel", "runtime"]
  const AGENT_WORDS := ["forge", "hermes", "atlas"]
  const EXPERIENCE_WORDS := ["docs", "brand", "studio", "site"]

  function ClassifyPlane(name: string): Plane {
    var repo := Text.ToLower(name);
    if IncludesAny(repo, GOVERNANCE_WORDS) then Governance
    else if IncludesAny(repo, EXECUTION_WORDS) then Execution
    else if IncludesAny(repo, AGENT_WORDS) then Agents
    else if IncludesAny(repo, EXPERIENCE_WORDS) then Experience
    else Infrastructure
  }

  /** The order in which the planes are tried. */
  function Precedence(p: Plane): nat {
    match p
    case Governance => 0
    case Execution => 1
    case Agents => 2
    case Experience => 3
    case _ => 4
  }

  lemma IncludesWithin(before: string, s: string, after: string, parts: seq<string>)
    requires IncludesAny(s, parts)
    ensures IncludesAny(before + s + after, parts)
  {
    var k :| 0 <= k < |parts| && Includes(s, parts[k]);
    var part := parts[k];
    var i :| 0 <= i <= |s| && At(s, part, i);
    var all, j := before + s + after, |before| + i;
    assert all[j..j + |part|] == s[i..i + |part|];
    assert At(all, part, j);
  }

  lemma {:induction false} ToLowerConcat(a: string, b: string)
    ensures Text.ToLower(a + b) == Text.ToLower(a) + Text.ToLower(b)
  {
    if a == "" {
      assert a + b == b;
    } else {
      assert (a + b)[1..] == a[1..] + b;
      ToLowerConcat(a[1..], b);
    }
  }

  /** Text around a repository's name, such as its owner, can only move it to a plane that is tried earlier. */
  lemma ContextOnlyRaisesPlane(before: string, name: string, after: string)
    ensures Precedence(ClassifyPlane(before + name + after)) <= Precedence(ClassifyPlane(name))
  {
    ToLowerConcat(before + name, after);
    ToLowerConcat(before, name);
    var a, s, b := Text.ToLower(before), Text.ToLower(name), Text.ToLower(after);
    if IncludesAny(s, GOVERNANCE_WORDS) {
      IncludesWithin(a, s, b, GOVERNANCE_WORDS);
    } else if IncludesAny(s, EXECUTION_WORDS) {
      IncludesWithin(a, s, b, EXECUTION_WORDS);
    } else if IncludesAny(s, AGENT_WORDS) {
      IncludesWithin(a, s, b, AGENT_WORDS);
    } else if IncludesAny(s, EXPERIENCE_WORDS) {
      IncludesWithin(a, s, b, EXPERIENCE_WORDS);
    }
  }

  /** Some word occurs in the text. */
  ghost predicate Mentions(s: string, words: set<string>) {
    exists w, before, after :: w in words && s == before + w + after
  }

  lemma WordAt(before: string, w: string, after: string)
    ensures At(before + w + after, w, |before|)
  {
  }

  lemma WordBetween(s: string, w: string, i: nat)
    requires i <= |s| && At(s, w, i)
    ensures s == s[..i] + w + s[i + |w|..]
  {
  }

  lemma MentionsIff(s: string, parts: seq<string>)
    ensures Mentions(s, set w | w in parts) <==> IncludesAny(s, parts)
  {
    hide At;
    if Mentions(s, set w | w in parts) {
      var w, before, after :| w in parts && s == before + w + after;
      WordAt(before, w, after);
      var k :| 0 <= k < |parts| && parts[k] == w;
      assert Includes(s, parts[k]);
    }
    if IncludesAny(s, parts) {
      var k :| 0 <= k < |parts| && Includes(s, parts[k]);
      var i: int :| 0 <= i <= |s| && At(s, parts[k], i);
      WordBetween(s, parts[k], i);
    }
  }

  /**
   The plane of a repository, `s` being its name in lower case: the first of the four that one of its own words is
   mentioned for, and infrastructure if none is.
   */
  lemma PlaneIff(name: string, s: string)
    requires |s| == |name|
    requires forall i | 0 <= i < |s| :: s[i] == if 'A' <= name[i] <= 'Z' then (name[i] as int + 32) as char else name[i]
    ensures var governance := Mentions(s, {"governance", "trust-gateway", "contracts", "aie"});
            var execution := Mentions(s, {"works-execution", "sentinel", "runtime"});
            var agents := Mentions(s, {"forge", "hermes", "atlas"});
            var experience := Mentions(s, {"docs", "brand", "studio", "site"});
            && (ClassifyPlane(name) == Governance <==> governance)
            && (ClassifyPlane(name) == Execution <==> execution && !governance)
            && (ClassifyPlane(name) == Agents <==> agents && !execution && !governance)
            && (ClassifyPlane(name) == Experience <==> experience && !agents && !execution && !governance)
            && (ClassifyPlane(name) == Infrastructure <==> !experience && !agents && !execution && !governance)
  {
    hide IncludesAny, Mentions;
    forall i | 0 <= i < |s|
      ensures Text.ToLower(name)[i] == s[i]
    {
      Text.LowerAt(name, i);
    }
    assert Text.ToLower(name) == s;
    MentionsIff(s, GOVERNANCE_WORDS);
    MentionsIff(s, EXECUTION_WORDS);
    MentionsIff(s, AGENT_WORDS);
    MentionsIff(s, EXPERIENCE_WORDS);
    assert (set w | w in GOVERNANCE_WORDS) == {"governance", "trust-gateway", "contracts", "aie"};
    assert (set w | w in EXECUTION_WORDS) == {"works-execution", "sentinel", "runtime"};
    assert (set w | w in AGENT_WORDS) == {"forge", "hermes", "atlas"};
    assert (set w | w in EXPERIENCE_WORDS) == {"docs", "brand", "studio", "site"};
  }

  // ---- The controller -------------------------------------------------------

  datatype Share = Share(tier: TierId, sensitivity: real, missRate: real, cumulativeBound: real)
  datatype Report = Report(bound: real, perTier: seq<Share>, isProvableZero: bool)

  datatype Step =
    | PriorStep(plane: Plane, probability: real, odds: real)
    | UpdateStep(tier: TierId, passed: bool, ratio: real, odds: real, probability: real)

  datatype Update = Update(posterior: real, odds: real, trace: seq<Step>, priorOdds: real)

  /** What the trace records for one piece of evidence: the state after the chain up to and including it. */
  ghost function StepAfter(s: Sensitivities, prior: real, chain: seq<Evidence>, i: nat): Step
    requires Probabilities(s) && 0.0 <= prior < 1.0 && i < |chain|
  {
    UpdateStep(chain[i].tier, chain[i].passed, Round6(LikelihoodRatio(s, chain[i])),
               Round6(PosteriorOdds(s, prior, chain[..i + 1])), Round6(Posterior(s, prior, chain[..i + 1])))
  }

  function ShareOf(s: Sensitivities, tiers: seq<TierId>, i: nat): Share
    requires i < |tiers|
  {
    Share(tiers[i], s(tiers[i]), 1.0 - s(tiers[i]), Round8(MissBound(s, tiers[..i + 1])))
  }

  class Controller {
    var calibration: Calibration
    const alpha: real
    const root: real -> real
    ghost var history: seq<Outcome>

    ghost predicate Valid()
      reads this
    {
      IsRoot(root) && calibration == Recorded(history)
    }

    ghost function InUse(): (s: Sensitivities)
      reads this
      requires Valid()
      ensures Probabilities(s)
    {
      HistoryGivesProbabilities(history, root);
      InForce(calibration, root)
    }

    constructor (costFalsePositive: Option<real>, costFalseNegative: Option<real>, root: real -> real)
      requires IsRoot(root)
      requires costFalsePositive.Some? ==> costFalsePositive.value >= 0.0
      requires costFalseNegative.Some? ==> costFalseNegative.value >= 0.0
      ensures Valid() && history == [] && this.root == root
      ensures var given := (cost: Option<real>) => cost.Some? && cost.value != 0.0;
              && (given(costFalsePositive) && given(costFalseNegative) ==>
                    alpha == costFalsePositive.value / (costFalsePositive.value + costFalseNegative.value))
              && (given(costFalsePositive) && !given(costFalseNegative) ==>
                    alpha == costFalsePositive.value / (costFalsePositive.value + 1.0))
              && (!given(costFalsePositive) && given(costFalseNegative) ==>
                    alpha == 19.0 / (19.0 + costFalseNegative.value))
              && (!given(costFalsePositive) && !given(costFalseNegative) ==> alpha == 0.95)
    {
      calibration := Uncalibrated();
      alpha := Threshold(CostOr(costFalsePositive, 19.0), CostOr(costFalseNegative, 1.0));
      this.root := root;
      history := [];
    }

    method RecordCalibration(tier: TierId, detected: bool)
      requires Valid()
      modifies this
      ensures Valid() && history == old(history) + [Outcome(tier, detected)]
    {
      hide Recorded;
      RecordedAppend(history, Outcome(tier, detected));
      if tier !in calibration {
        calibration := calibration[tier := Tally(0, 0)];
      }
      calibration := calibration[tier := calibration[tier].(total := calibration[tier].total + 1)];
      if detected {
        calibration := calibration[tier := calibration[tier].(passes := calibration[tier].passes + 1)];
      }
      history := history + [Outcome(tier, detected)];
    }

    method SequentialUpdate(plane: Plane, chain: seq<Evidence>) returns (u: Update)
      requires Valid()
      ensures u.priorOdds == OddsOf(Prior(plane)) && u.odds == PosteriorOdds(InUse(), Prior(plane), chain)
      ensures u.odds >= 0.0 && u.posterior == Posterior(InUse(), Prior(plane), chain)
      ensures |u.trace| == |chain| + 1 && u.trace[0] == PriorStep(plane, Prior(plane), OddsOf(Prior(plane)))
      ensures forall i | 0 <= i < |chain| :: u.trace[i + 1] == StepAfter(InUse(), Prior(plane), chain, i)
    {
      hide Product, OddsOf, ProbabilityOf, Round, LikelihoodRatio, Prior;
      ghost var s := InUse();
      var prior := Prior(plane);
      var priorOdds := OddsOf(prior);
      var odds := priorOdds;
      var trace := [PriorStep(plane, prior, priorOdds)];
      ProductNone(Ratios(s));
      for i := 0 to |chain|
        invariant odds == PosteriorOdds(s, prior, chain[..i])
        invariant |trace| == i + 1 && trace[0] == PriorStep(plane, prior, priorOdds)
        invariant forall j | 0 <= j < i :: trace[j + 1] == StepAfter(s, prior, chain, j)
      {
        var v := chain[i];
        var ratio := LikelihoodRatio(InForce(calibration, root), v);
        ghost var rest := chain[..i];
        assert chain[..i + 1] == rest + [v];
        ProductAppend(Ratios(s), rest, v);
        Associate(priorOdds, Product(Ratios(s), rest), ratio);
        odds := odds * ratio;
        PosteriorOddsNonNegative(s, prior, chain[..i + 1]);
        trace := trace + [UpdateStep(v.tier, v.passed, Round6(ratio), Round6(odds), Round6(ProbabilityOf(odds)))];
      }
      assert chain[..|chain|] == chain;
      PosteriorOddsNonNegative(s, prior, chain);
      u := Update(ProbabilityOf(odds), odds, trace, priorOdds);
    }

    method ComputeFcrBound(tiers: seq<TierId>) returns (r: Report)
      requires Valid()
      ensures r.bound == Round8(MissBound(InUse(), tiers)) && 0.0 <= r.bound <= 1.0
      ensures r.isProvableZero
              <==> exists t :: t in tiers && ListedSensitivity(t) == 1.0 && |RecordsOf(history, t)| < 10
      ensures |r.perTier| == |tiers|
      ensures forall i | 0 <= i < |tiers| :: r.perTier[i] == ShareOf(InUse(), tiers, i)
      ensures forall i | 0 <= i < |tiers| :: r.perTier[i].sensitivity + r.perTier[i].missRate == 1.0
    {
      hide Product, Round;
      ghost var s := InUse();
      var bound, perTier := 1.0, [];
      ProductNone(MissRates(s));
      for i := 0 to |tiers|
        invariant bound == MissBound(s, tiers[..i])
        invariant |perTier| == i && forall j | 0 <= j < i :: perTier[j] == ShareOf(s, tiers, j)
      {
        var t := tiers[i];
        var sensitivity := Sensitivity(calibration, root, t);
        var contribution := 1.0 - sensitivity;
        assert tiers[..i + 1] == tiers[..i] + [t];
        ProductAppend(MissRates(s), tiers[..i], t);
        bound := bound * contribution;
        perTier := perTier + [Share(t, sensitivity, contribution, Round8(bound))];
      }
      assert tiers[..|tiers|] == tiers;
      MissBoundInUnit(s, tiers);
      Round8Facts(bound, bound);
      ProvableZeroIff(history, root, tiers);
      r := Report(Round8(bound), perTier, bound == 0.0);
    }

    method Decide(repo: string, chain: seq<Evidence>, tiers: seq<TierId>)
      returns (plane: Plane, verdict: Verdict, u: Update, r: Report)
      requires Valid()
      ensures plane == ClassifyPlane(repo)
      ensures verdict == Decision(InUse(), alpha, plane, chain, tiers)
      ensures alpha > 0.0 ==>
                && (verdict.AutonomousExecution? <==> Max(r.bound, u.posterior) < alpha)
                && (verdict.HaltAndEscalate? <==> Max(r.bound, u.posterior) >= 2.0 * alpha)
      ensures r.bound == Round8(MissBound(InUse(), tiers))
      ensures u.posterior == Posterior(InUse(), Prior(plane), chain)
    {
      hide Product, Round, ProbabilityOf;
      plane := ClassifyPlane(repo);
      u := SequentialUpdate(plane, chain);
      r := ComputeFcrBound(tiers);
      if r.bound < alpha && u.posterior < alpha {
        verdict := AutonomousExecution;
      } else if r.bound < 2.0 * alpha && u.posterior < 2.0 * alpha {
        verdict := HumanReview;
      } else {
        verdict := HaltAndEscalate;
      }
    }
  }
}
