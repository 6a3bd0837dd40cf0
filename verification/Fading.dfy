/** Exponential decay and its laws. */
module Fadings {

  function Pow(r: real, n: nat): real { if n == 0 then 1.0 else r * Pow(r, n - 1) }

  /** The decay factor of one microsecond, if there is any decay. */
  datatype Decay = Off | Factor(r: real)

  predicate DecayOk(d: Decay) { d.Factor? ==> 0.0 < d.r < 1.0 }

  /** What a value becomes over some microseconds. */
  type Fading = (nat, real) -> real

  function Fade(d: Decay): Fading { (n: nat, x: real) => if d.Factor? then x * Pow(d.r, n) else x }

  // ----- laws of fading -----

  predicate AtOnce(f: Fading, x: real) { f(0, x) == x }

  predicate Composes(f: Fading, m: nat, n: nat, x: real) { f(n, f(m, x)) == f(m + n, x) }

  predicate Additive(f: Fading, n: nat, x: real, y: real) { f(n, x + y) == f(n, x) + f(n, y) }

  predicate Shrinks(f: Fading, n: nat, x: real) { x > 0.0 ==> 0.0 < f(n, x) <= x && (n > 0 ==> f(n, x) < x) }

  ghost predicate Lawful(f: Fading) {
    && (forall x :: AtOnce(f, x))
    && (forall m: nat, n: nat, x :: Composes(f, m, n, x))
    && (forall n: nat, x, y :: Additive(f, n, x, y))
    && (forall n: nat, x :: Shrinks(f, n, x))
  }

  ghost predicate Keeps(f: Fading) { forall n: nat, x :: f(n, x) == x }

  lemma Assoc(a: real, b: real, c: real)
    ensures a * (b * c) == (a * b) * c
  {
  }

  lemma AddDistributes(a: real, b: real, c: real)
    ensures (a + b) * c == a * c + b * c
  {
  }

  lemma ScaleOrder(a: real, b: real, p: real)
    requires a < b && p > 0.0
    ensures a * p < b * p
  {
    assert b * p - a * p == (b - a) * p;
  }

  lemma {:induction false} PowSum(r: real, m: nat, n: nat)
    ensures Pow(r, m + n) == Pow(r, m) * Pow(r, n)
    decreases m
  {
    if m > 0 {
      PowSum(r, m - 1, n);
      Assoc(r, Pow(r, m - 1), Pow(r, n));
    }
  }

  lemma {:induction false} PowRange(r: real, n: nat)
    requires 0.0 < r < 1.0
    ensures 0.0 < Pow(r, n) <= 1.0 && (n > 0 ==> Pow(r, n) < 1.0)
    decreases n
  {
    if n > 0 {
      PowRange(r, n - 1);
      ScaleOrder(0.0, Pow(r, n - 1), r);
      if Pow(r, n - 1) < 1.0 { ScaleOrder(Pow(r, n - 1), 1.0, r); }
    }
  }

  lemma FadeShrinks(r: real, n: nat, x: real)
    requires 0.0 < r < 1.0
    ensures Shrinks(Fade(Factor(r)), n, x)
  {
    PowRange(r, n);
    if x > 0.0 {
      var p := Pow(r, n);
      ScaleOrder(0.0, p, x);
      if n > 0 { ScaleOrder(p, 1.0, x); }
      assert p * x == x * p;
      assert Fade(Factor(r))(n, x) == x * p;
    }
  }

  lemma FadeComposes(r: real, m: nat, n: nat, x: real)
    ensures Composes(Fade(Factor(r)), m, n, x)
  {
    PowSum(r, m, n);
    Assoc(x, Pow(r, m), Pow(r, n));
  }

  /** Exponential decay obeys the laws. */
  lemma DecayIsLawful(d: Decay)
    requires DecayOk(d)
    ensures if d.Factor? then Lawful(Fade(d)) else Keeps(Fade(d))
  {
    if d.Factor? {
      var f := Fade(d);
      forall m: nat, n: nat, x ensures Composes(f, m, n, x) { FadeComposes(d.r, m, n, x); }
      forall n: nat, x, y ensures Additive(f, n, x, y) { AddDistributes(x, y, Pow(d.r, n)); }
      forall n: nat, x ensures Shrinks(f, n, x) { FadeShrinks(d.r, n, x); }
    }
  }

  // ----- consequences of the laws -----

  lemma FadeZero(f: Fading, n: nat)
    requires Lawful(f)
    ensures f(n, 0.0) == 0.0
  {
    assert Additive(f, n, 0.0, 0.0);
  }

  lemma FadeNegates(f: Fading, n: nat, x: real)
    requires Lawful(f)
    ensures f(n, -x) == -f(n, x)
  {
    FadeZero(f, n);
    assert Additive(f, n, x, -x);
  }

  lemma FadeOrders(f: Fading, n: nat, x: real, y: real)
    requires Lawful(f) && x < y
    ensures f(n, x) < f(n, y)
  {
    assert Shrinks(f, n, y - x);
    assert Additive(f, n, x, y - x);
    assert x + (y - x) == y;
  }

  lemma FadeSigns(f: Fading, n: nat, x: real)
    requires Lawful(f)
    ensures x >= 0.0 ==> 0.0 <= f(n, x) <= x
    ensures x < 0.0 ==> x <= f(n, x) < 0.0 && (f(n, x) == x <==> n == 0)
  {
    assert Shrinks(f, n, x) && Shrinks(f, n, -x);
    FadeZero(f, n);
    FadeNegates(f, n, x);
    assert AtOnce(f, x);
  }

  lemma FadeStrictly(f: Fading, m: nat, n: nat, x: real)
    requires Lawful(f) && m <= n && x >= 0.0
    ensures f(n, x) <= f(m, x) && (f(n, x) == f(m, x) <==> x == 0.0 || m == n)
  {
    assert Composes(f, m, n - m, x) && Shrinks(f, m, x) && Shrinks(f, n - m, f(m, x));
    FadeZero(f, m);
    FadeZero(f, n);
  }
}
