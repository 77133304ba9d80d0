/** Real-number facts behind the evidence-gated autonomy controller: signs, quotients and products of factors. */
module RealFacts {
  /** The product is named so that callers keep its sign. */
  lemma Positive(a: real, b: real) returns (c: real)
    requires a > 0.0 && b > 0.0
    ensures c == a * b && c > 0.0
  {
    c := a * b;
  }

  lemma NonNegative(a: real, b: real) returns (c: real)
    requires a >= 0.0 && b >= 0.0
    ensures c == a * b && c >= 0.0
  {
    c := a * b;
  }

  lemma Quotient(a: real, m: real) returns (c: real)
    requires a > 0.0 && m > 0.0
    ensures c == a / m && c > 0.0
  {
    c := a / m;
  }

  lemma Associate(a: real, b: real, c: real)
    ensures (a * b) * c == a * (b * c)
  {
  }

  lemma Rotate(a: real, b: real, c: real)
    ensures a * (b * c) == (a * c) * b
  {
  }

  lemma Shrink(a: real, b: real) returns (c: real)
    requires 0.0 <= a && 0.0 <= b <= 1.0
    ensures c == a * b && 0.0 <= c <= a
  {
    c := NonNegative(a, b);
    var d := NonNegative(a, 1.0 - b);
  }

  lemma ZeroFactor(a: real, b: real)
    ensures a * b == 0.0 <==> a == 0.0 || b == 0.0
  {
  }

  lemma SquareOfProduct(v: real, h: real)
    ensures (v * h) * (v * h) == (v * v) * (h * h)
  {
  }

  /** `x / d` against `y`. */
  lemma DivideOrder(x: real, d: real, y: real)
    requires d > 0.0
    ensures x <= y * d ==> x / d <= y
    ensures x >= y * d ==> x / d >= y
    ensures x < y * d ==> x / d < y
  {
    assert (x / d) * d == x;
    if x / d > y {
      var c := Positive(x / d - y, d);
    } else if x / d < y {
      var c := Positive(y - x / d, d);
    }
  }

  // ---- Products -------------------------------------------------------------

  function Product<T>(f: T -> real, xs: seq<T>): real {
    if xs == [] then 1.0 else Product(f, xs[..|xs| - 1]) * f(xs[|xs| - 1])
  }

  lemma ProductNone<T>(f: T -> real)
    ensures Product(f, []) == 1.0
  {
  }

  lemma ProductAppend<T>(f: T -> real, xs: seq<T>, x: T)
    ensures Product(f, xs + [x]) == Product(f, xs) * f(x)
  {
    assert (xs + [x])[..|xs|] == xs;
  }

  lemma {:induction false} ProductConcat<T>(f: T -> real, xs: seq<T>, ys: seq<T>)
    ensures Product(f, xs + ys) == Product(f, xs) * Product(f, ys)
  {
    if ys == [] {
      assert xs + ys == xs;
    } else {
      var k := |ys| - 1;
      assert xs + ys == (xs + ys[..k]) + [ys[k]];
      ProductAppend(f, xs + ys[..k], ys[k]);
      ProductConcat(f, xs, ys[..k]);
      Associate(Product(f, xs), Product(f, ys[..k]), f(ys[k]));
    }
  }

  lemma ProductOne<T>(f: T -> real, x: T)
    ensures Product(f, [x]) == f(x)
  {
    assert [] + [x] == [x];
    ProductAppend(f, [], x);
  }

  /** One factor can be taken out of the middle. */
  lemma ProductWithout<T>(f: T -> real, before: seq<T>, x: T, after: seq<T>)
    ensures Product(f, before + [x] + after) == Product(f, before + after) * f(x)
  {
    hide Product;
    ProductConcat(f, before + [x], after);
    ProductAppend(f, before, x);
    ProductConcat(f, before, after);
    SwapLast(Product(f, before), f(x), Product(f, after));
  }

  lemma SwapLast(a: real, b: real, c: real)
    ensures (a * b) * c == (a * c) * b
  {
  }

  lemma MultisetWithout<T>(before: seq<T>, x: T, after: seq<T>)
    ensures multiset(before + [x] + after) == multiset(before + after) + multiset{x}
  {
  }

  lemma CancelElement<T>(a: multiset<T>, b: multiset<T>, x: T)
    requires a + multiset{x} == b + multiset{x}
    ensures a == b
  {
    assert a == (a + multiset{x}) - multiset{x};
    assert b == (b + multiset{x}) - multiset{x};
  }

  /** The order of the factors does not matter. */
  lemma {:induction false} ProductPermutes<T>(f: T -> real, xs: seq<T>, ys: seq<T>)
    requires multiset(xs) == multiset(ys)
    ensures Product(f, xs) == Product(f, ys)
    decreases |xs|
  {
    hide Product;
    if xs == [] {
      assert |multiset(ys)| == 0;
      assert ys == [];
    } else {
      var rest, x := xs[..|xs| - 1], xs[|xs| - 1];
      assert xs == rest + [x];
      assert x in multiset(xs);
      var i :| 0 <= i < |ys| && ys[i] == x;
      var before, after := ys[..i], ys[i + 1..];
      assert ys == before + [x] + after;
      MultisetWithout(before, x, after);
      assert multiset(xs) == multiset(rest) + multiset{x};
      CancelElement(multiset(rest), multiset(before + after), x);
      ProductPermutes(f, rest, before + after);
      ProductWithout(f, before, x, after);
      ProductAppend(f, rest, x);
    }
  }

  lemma {:induction false} ProductInUnit<T>(f: T -> real, xs: seq<T>)
    requires forall x | x in xs :: 0.0 <= f(x) <= 1.0
    ensures 0.0 <= Product(f, xs) <= 1.0
  {
    if xs != [] {
      var k := |xs| - 1;
      assert xs[k] in xs && forall x | x in xs[..k] :: x in xs;
      ProductInUnit(f, xs[..k]);
      var c := Shrink(Product(f, xs[..k]), f(xs[k]));
    }
  }

  lemma {:induction false} ProductNonNegative<T>(f: T -> real, xs: seq<T>)
    requires forall x | x in xs :: 0.0 <= f(x)
    ensures 0.0 <= Product(f, xs)
  {
    if xs != [] {
      var k := |xs| - 1;
      assert xs[k] in xs && forall x | x in xs[..k] :: x in xs;
      ProductNonNegative(f, xs[..k]);
      var c := NonNegative(Product(f, xs[..k]), f(xs[k]));
    }
  }

  lemma {:induction false} ProductZeroIff<T>(f: T -> real, xs: seq<T>)
    ensures Product(f, xs) == 0.0 <==> exists x :: x in xs && f(x) == 0.0
  {
    if xs != [] {
      var rest, x := xs[..|xs| - 1], xs[|xs| - 1];
      ProductZeroIff(f, rest);
      assert xs == rest + [x];
      ZeroFactor(Product(f, rest), f(x));
    }
  }
}
