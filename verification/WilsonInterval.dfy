/**
 The Wilson score interval (packages/egac/src/index.js), over exact reals; the square root is any function that
 squares back to its argument.
 */
module WilsonInterval {
  import opened RealFacts

  datatype Interval = Interval(low: real, high: real, point: real)

  /** `root` is the square root where it is applied. */
  ghost predicate IsRoot(root: real -> real) {
    forall x: real :: x >= 0.0 ==> root(x) >= 0.0 && root(x) * root(x) == x
  }

  function Max(a: real, b: real): real {
    if a > b then a else b
  }

  function Min(a: real, b: real): real {
    if a < b then a else b
  }

  lemma AboveOne(z: real, m: real)
    requires z > 0.0 && m > 0.0
    ensures 1.0 + z * z / m > 1.0
  {
    var zz := Positive(z, z);
    var q := Quotient(zz, m);
  }

  function Denominator(n: nat, z: real): (d: real)
    requires n > 0 && z > 0.0
    ensures d > 1.0
  {
    AboveOne(z, n as real);
    1.0 + z * z / n as real
  }

  function Centre(p: real, n: nat, z: real): real
    requires n > 0 && z > 0.0
  {
    (p + z * z / (2.0 * n as real)) / Denominator(n, z)
  }

  function Variance(p: real, n: nat, z: real): real
    requires n > 0
  {
    var m := n as real;
    p * (1.0 - p) / m + z * z / (4.0 * m * m)
  }

  function Spread(p: real, n: nat, z: real, root: real -> real): real
    requires n > 0 && z > 0.0
  {
    z / Denominator(n, z) * root(Variance(p, n, z))
  }

  function Proportion(k: nat, n: nat): (p: real)
    requires n > 0
    ensures p * n as real == k as real && 0.0 <= p && (k <= n ==> p <= 1.0)
  {
    DivideOrder(k as real, n as real, 0.0);
    DivideOrder(k as real, n as real, 1.0);
    k as real / n as real
  }

  lemma QuotientIsProduct(x: real, m: real)
    requires m > 0.0
    ensures x / m == x * (1.0 / m)
  {
    var a := 1.0 / m;
    assert a * m == 1.0;
    Associate(x, a, m);
    var y := x / m;
    assert y * m == x;
    assert (y - x * a) * m == 0.0;
    ZeroFactor(y - x * a, m);
  }

  /** The completed square behind the interval; `w` is `z * z / n`. */
  lemma CompletedSquare(p: real, x: real, w: real)
    ensures (x * (1.0 + w) - p - w / 2.0) * (x * (1.0 + w) - p - w / 2.0) - (w * (p * (1.0 - p)) + w * w / 4.0)
         == (1.0 + w) * ((p - x) * (p - x) - w * (x * (1.0 - x)))
  {
  }

  /** The interval's pieces with the divisions cleared. */
  lemma Cleared(p: real, n: nat, z: real, root: real -> real) returns (w: real, half: real)
    requires n > 0 && z > 0.0 && 0.0 <= p <= 1.0 && IsRoot(root)
    ensures w == z * z / n as real && w > 0.0 && Denominator(n, z) == 1.0 + w
    ensures Centre(p, n, z) * (1.0 + w) == p + w / 2.0
    ensures half == Spread(p, n, z, root) * (1.0 + w) && half >= 0.0
    ensures half * half == w * (p * (1.0 - p)) + w * w / 4.0
  {
    hide Variance;
    var m := n as real;
    var zz := Positive(z, z);
    w := Quotient(zz, m);
    HalfQuotient(zz, m);
    VarianceScaled(p, n, z, w);
    var s := root(Variance(p, n, z));
    half := NonNegative(z, s);
    QuotientTimes(z, s, 1.0 + w);
    SquareOfProduct(z, s);
  }

  lemma QuotientTimes(z: real, s: real, d: real)
    requires d > 0.0
    ensures (z / d * s) * d == z * s
  {
    var q := z / d;
    assert q * d == z;
    assert (q * s) * d == (q * d) * s;
  }

  lemma VarianceScaled(p: real, n: nat, z: real, w: real)
    requires n > 0 && z > 0.0 && 0.0 <= p <= 1.0 && w == z * z / n as real
    ensures Variance(p, n, z) >= 0.0
    ensures (z * z) * Variance(p, n, z) == w * (p * (1.0 - p)) + w * w / 4.0
  {
    var m := n as real;
    var zz := Positive(z, z);
    var v := Quotient(zz, m);
    var q := NonNegative(p, 1.0 - p);
    var a := Quotient(1.0, m);
    var qa := NonNegative(q, a);
    var wa := Positive(v, a);
    QuotientIsProduct(zz, m);
    QuotientIsProduct(q, m);
    QuarterQuotient(zz, m);
    assert Variance(p, n, z) == qa + wa / 4.0;
    Scaled(zz, q, a, v);
  }

  lemma Scaled(zz: real, q: real, a: real, w: real)
    requires w == zz * a
    ensures zz * (q * a + w * a / 4.0) == w * q + w * w / 4.0
  {
    Rotate(zz, q, a);
    Rotate(zz, w, a);
    assert zz * (q * a + w * a / 4.0) == zz * (q * a) + zz * (w * a) / 4.0;
  }

  lemma HalfQuotient(x: real, m: real)
    requires m > 0.0
    ensures x / (2.0 * m) == (x / m) / 2.0
  {
    var y := x / m;
    assert y * m == x;
    assert (y / 2.0) * (2.0 * m) == x;
    CancelFactor(x / (2.0 * m), y / 2.0, 2.0 * m);
  }

  lemma QuarterQuotient(x: real, m: real)
    requires m > 0.0
    ensures x / (4.0 * m * m) == (x / m) * (1.0 / m) / 4.0
  {
    var mm := Positive(4.0 * m, m);
    var y, a := x / m, 1.0 / m;
    assert y * m == x && a * m == 1.0;
    assert (y * a / 4.0) * (4.0 * m * m) == (y * m) * (a * m);
    CancelFactor(x / (4.0 * m * m), y * a / 4.0, 4.0 * m * m);
  }

  lemma CancelFactor(x: real, y: real, m: real)
    requires m > 0.0 && x * m == y * m
    ensures x == y
  {
    assert (x - y) * m == 0.0;
    ZeroFactor(x - y, m);
  }

  lemma ScaledOrder(a: real, b: real, d: real)
    requires d > 0.0
    ensures a <= b <==> a * d <= b * d
  {
    SignOfProduct(d, a - b);
  }

  lemma SignOfProduct(d: real, x: real)
    requires d > 0.0
    ensures d * x <= 0.0 <==> x <= 0.0
  {
    if x > 0.0 {
      var c := Positive(d, x);
    } else {
      var c := NonNegative(d, -x);
    }
  }

  lemma Within(u: real, t: real)
    requires t >= 0.0
    ensures -t <= u <= t <==> u * u <= t * t
  {
    if -t <= u <= t {
      var c := NonNegative(t - u, t + u);
    } else if u > t {
      var c := Positive(u - t, u + t);
    } else {
      var c := Positive(-u - t, t - u);
    }
  }

  lemma InsideUnit(p: real, x: real, w: real)
    requires w > 0.0 && (p - x) * (p - x) <= w * (x * (1.0 - x))
    ensures 0.0 <= x <= 1.0
  {
    var square := p - x;
    if square >= 0.0 {
      var c := NonNegative(square, square);
    } else {
      var c := Positive(-square, -square);
    }
    SignOfProduct(w, x * (x - 1.0));
    assert w * (x * (x - 1.0)) == -(w * (x * (1.0 - x)));
    if x < 0.0 {
      var c := Positive(-x, 1.0 - x);
    } else if x > 1.0 {
      var c := Positive(x, x - 1.0);
    }
  }

  /** The score test at significance `z` does not reject the proportion `x` after observing `p` in `m` trials. */
  predicate Accepts(p: real, m: real, z: real, x: real) {
    m * ((p - x) * (p - x)) <= z * z * (x * (1.0 - x))
  }

  /** The same inversion with the divisions cleared; `w` is `z * z / n`. */
  lemma Inversion(p: real, w: real, c: real, t: real, x: real)
    requires w > 0.0 && c * (1.0 + w) == p + w / 2.0 && t * (1.0 + w) >= 0.0
    requires (t * (1.0 + w)) * (t * (1.0 + w)) == w * (p * (1.0 - p)) + w * w / 4.0
    ensures c - t <= x <= c + t <==> (p - x) * (p - x) <= w * (x * (1.0 - x))
  {
    var d := 1.0 + w;
    var u, half := x * d - p - w / 2.0, t * d;
    assert (x - c) * d == x * d - c * d == u;
    assert (-t) * d == -half;
    ScaledOrder(-t, x - c, d);
    ScaledOrder(x - c, t, d);
    Within(u, half);
    CompletedSquare(p, x, w);
    SignOfProduct(d, (p - x) * (p - x) - w * (x * (1.0 - x)));
  }

  lemma AcceptsScaled(p: real, m: real, z: real, x: real, w: real)
    requires m > 0.0 && w == z * z / m && w > 0.0
    ensures Accepts(p, m, z, x) <==> (p - x) * (p - x) <= w * (x * (1.0 - x))
    ensures Accepts(p, m, z, x) ==> 0.0 <= x <= 1.0
  {
    var g, h := (p - x) * (p - x), x * (1.0 - x);
    ScaledOrder(g, w * h, m);
    assert w * m == z * z;
    assert (w * h) * m == (w * m) * h;
    if g <= w * h {
      InsideUnit(p, x, w);
    }
  }

  lemma InvertsAround(p: real, n: nat, z: real, root: real -> real, x: real)
    requires 0 < n && 0.0 <= p <= 1.0 && z > 0.0 && IsRoot(root)
    ensures Centre(p, n, z) - Spread(p, n, z, root) <= x <= Centre(p, n, z) + Spread(p, n, z, root)
            <==> Accepts(p, n as real, z, x)
    ensures Accepts(p, n as real, z, x) ==> 0.0 <= x <= 1.0
  {
    var w, half := Cleared(p, n, z, root);
    Inversion(p, w, Centre(p, n, z), Spread(p, n, z, root), x);
    AcceptsScaled(p, n as real, z, x, w);
  }

  lemma LowBelowOne(p: real, n: nat, z: real, root: real -> real)
    requires n > 0 && z > 0.0 && 0.0 <= p <= 1.0 && IsRoot(root)
    ensures Centre(p, n, z) - Spread(p, n, z, root) < 1.0
  {
    hide Centre, Spread, Denominator, IsRoot;
    var w, half := Cleared(p, n, z, root);
    BelowOne(p, w, half, Centre(p, n, z), Spread(p, n, z, root));
  }

  lemma BelowOne(p: real, w: real, half: real, c: real, t: real)
    requires p <= 1.0 && w > 0.0 && half >= 0.0
    requires c * (1.0 + w) == p + w / 2.0 && t * (1.0 + w) == half
    ensures c - t < 1.0
  {
    if c - t >= 1.0 {
      var e := NonNegative(c - t - 1.0, 1.0 + w);
    }
  }

  lemma BracketsProportion(p: real, n: nat, z: real, root: real -> real)
    requires n > 0 && z > 0.0
    ensures 0.0 <= p <= 1.0 && IsRoot(root) ==> Brackets(Centre(p, n, z), Spread(p, n, z, root), p)
  {
    hide Centre, Spread, Denominator, IsRoot;
    if 0.0 <= p <= 1.0 && IsRoot(root) {
      LowBelowOne(p, n, z, root);
      var zz := Positive(z, z);
      var q := NonNegative(p, 1.0 - p);
      var e := NonNegative(zz, q);
      assert Accepts(p, n as real, z, p);
      InvertsAround(p, n, z, root, p);
    }
  }

  predicate Brackets(centre: real, spread: real, p: real) {
    centre - spread <= p <= centre + spread && centre - spread < 1.0
  }

  /**
   The score interval for `k` successes in `n` trials. Its bounds bracket the observed proportion inside the unit
   interval, and the lower one never reaches 1.
   */
  function Wilson(k: nat, n: nat, z: real, root: real -> real): (ci: Interval)
    requires z > 0.0
    ensures n == 0 ==> ci == Interval(0.0, 0.0, 0.0)
    ensures 0 < n && k <= n && IsRoot(root) ==>
              0.0 <= ci.low <= ci.point <= ci.high <= 1.0 && ci.low < 1.0 && ci.point == Proportion(k, n)
  {
    if n == 0 then Interval(0.0, 0.0, 0.0)
    else
      var p := Proportion(k, n);
      var centre, spread := Centre(p, n, z), Spread(p, n, z, root);
      BracketsProportion(p, n, z, root);
      Interval(Max(0.0, centre - spread), Min(1.0, centre + spread), p)
  }

  /**
   The interval is the inversion of the score test: it holds exactly the proportions `x` whose distance from the
   observed one is at most `z` standard errors computed at `x`.
   */
  lemma WilsonInvertsScoreTest(k: nat, n: nat, z: real, root: real -> real, x: real)
    requires 0 < n && k <= n && z > 0.0 && IsRoot(root)
    ensures var ci := Wilson(k, n, z, root);
            ci.point * n as real == k as real
            && (ci.low <= x <= ci.high <==> Accepts(ci.point, n as real, z, x))
  {
    hide Centre, Spread, Denominator, Accepts;
    InvertsAround(Proportion(k, n), n, z, root, x);
  }

  /** When every trial succeeded the lower bound is `n / (n + z * z)`. */
  lemma FlawlessLow(n: nat, z: real, root: real -> real)
    requires n > 0 && z > 0.0 && IsRoot(root)
    ensures Wilson(n, n, z, root).low * (n as real + z * z) == n as real
  {
    hide Wilson;
    var m, low := n as real, Wilson(n, n, z, root).low;
    var zz := Positive(z, z);
    var fair := Quotient(m, m + zz);
    assert Wilson(n, n, z, root).point == 1.0 by {
      assert Proportion(n, n) * m == m;
      ZeroFactor(Proportion(n, n) - 1.0, m);
    }
    WilsonInvertsScoreTest(n, n, z, root, low);
    LowAccepted(m, zz, low);
    FairAccepted(m, zz, fair);
    WilsonInvertsScoreTest(n, n, z, root, fair);
    assert fair * (m + zz) == m;
    var gap := NonNegative(fair - low, m + zz);
  }

  lemma LowAccepted(m: real, zz: real, low: real)
    requires low < 1.0 && m * ((1.0 - low) * (1.0 - low)) <= zz * (low * (1.0 - low))
    ensures m <= low * (m + zz)
  {
    var d := 1.0 - low;
    var excess := m * d - zz * low;
    assert excess * d == m * (d * d) - zz * (low * d);
    if excess > 0.0 {
      var c := Positive(excess, d);
    }
  }

  lemma FairAccepted(m: real, zz: real, fair: real)
    requires m > 0.0 && zz > 0.0 && fair == m / (m + zz)
    ensures m * ((1.0 - fair) * (1.0 - fair)) <= zz * (fair * (1.0 - fair))
  {
    assert fair * (m + zz) == m;
    var e := 1.0 - fair;
    assert m * e == zz * fair;
    Associate(m, e, e);
    Associate(zz, fair, e);
  }
}
