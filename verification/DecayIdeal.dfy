/** The counter on a clock of whole microseconds, which loses no time: it keeps the sum of all samples, each decayed
    from its own time, as long as that sum is not negative while time passes. */
module DecayIdeals {
  import opened Fadings
  import opened DecayingRates

  /** What a call contributes at time t: a sample, decayed from its own time. */
  function Term(f: Fading, op: Op, t: nat): real { if op.Add? && op.at <= t then f(t - op.at, op.sample) else 0.0 }

  /** The simple reading: the sum of all contributions. */
  function SumAt(f: Fading, ops: seq<Op>, t: nat): real {
    if ops == [] then 0.0 else SumAt(f, ops[..|ops| - 1], t) + Term(f, ops[|ops| - 1], t)
  }

  lemma {:induction false} SumFades(f: Fading, ops: seq<Op>, t: nat, u: nat)
    requires Lawful(f) && t <= u && forall i :: 0 <= i < |ops| ==> ops[i].at <= t
    ensures SumAt(f, ops, u) == f(u - t, SumAt(f, ops, t))
    decreases |ops|
  {
    if ops == [] {
      FadeZero(f, u - t);
    } else {
      var front, op := ops[..|ops| - 1], ops[|ops| - 1];
      SumFades(f, front, t, u);
      TermFades(f, op, t, u);
      assert Additive(f, u - t, SumAt(f, front, t), Term(f, op, t));
    }
  }

  lemma TermFades(f: Fading, op: Op, t: nat, u: nat)
    requires Lawful(f) && op.at <= t <= u
    ensures Term(f, op, u) == f(u - t, Term(f, op, t))
  {
    if op.Add? {
      assert Composes(f, t - op.at, u - t, op.sample);
      assert (t - op.at) + (u - t) == u - op.at;
    } else {
      FadeZero(f, u - t);
    }
  }

  // ----- how far the counter may fall behind -----

  /** The counter's value v and the sum x, both taken on in time: the counter does not decay what is negative. */
  lemma GapStep(f: Fading, v: real, x: real, n: nat)
    requires Lawful(f) && v <= x
    ensures var w := if v > 0.0 then f(n, v) else v;
            w <= f(n, x) && (w == f(n, x) <==> v == x && (v < 0.0 ==> n == 0))
  {
    FadeSigns(f, n, x);
    FadeZero(f, n);
    if v < x {
      FadeOrders(f, n, v, x);
      if 0.0 < x { FadeOrders(f, n, 0.0, x); }
    }
  }

  /** Time passes only while the sum is not negative. */
  predicate Steady(f: Fading, t0: nat, ops: seq<Op>, t: nat)
    decreases |ops|
  {
    && (SumAt(f, ops, LastTime(t0, ops)) < 0.0 ==> t == LastTime(t0, ops))
    && (ops != [] ==> Steady(f, t0, ops[..|ops| - 1], ops[|ops| - 1].at))
  }

  /** Where the counter stands after a run, at the time of its last call: never above the sum x, and at it exactly for
      runs that were steady. */
  ghost predicate Tracks(rule: Rule, s: State, x: real, now: nat, steady: bool) {
    && (s.value > 0.0 && rule.on ==> s.last == now)
    && s.value <= x
    && (s.value == x <==> !rule.on || steady)
  }

  /** From the last call to a later time. */
  lemma TracksLater(rule: Rule, s: State, x: real, now: nat, steady: bool, t: nat)
    requires RuleOk(rule) && rule.clock == Micros && Tracks(rule, s, x, now, steady) && now <= t
    ensures Faded(rule, s, t) <= rule.f(t - now, x)
    ensures Faded(rule, s, t) == rule.f(t - now, x) <==> !rule.on || (steady && (x < 0.0 ==> t == now))
  {
    if rule.on { GapStep(rule.f, s.value, x, t - now); }
  }

  lemma TracksStep(rule: Rule, s: State, x: real, now: nat, steady: bool, op: Op)
    requires RuleOk(rule) && rule.clock == Micros && Tracks(rule, s, x, now, steady) && now <= op.at
    ensures Tracks(rule, Step(rule, s, op), rule.f(op.at - now, x) + (if op.Add? then op.sample else 0.0), op.at,
                   steady && (x < 0.0 ==> op.at == now))
  {
    TracksLater(rule, s, x, now, steady, op.at);
  }

  lemma {:induction false} PlainSum(f: Fading, ops: seq<Op>, t: nat, u: nat)
    requires Keeps(f) && t <= u && forall i :: 0 <= i < |ops| ==> ops[i].at <= t
    ensures SumAt(f, ops, u) == SumAt(f, ops, t)
    decreases |ops|
  {
    if ops != [] { PlainSum(f, ops[..|ops| - 1], t, u); }
  }

  lemma SumLater(rule: Rule, ops: seq<Op>, t: nat, u: nat)
    requires RuleOk(rule) && t <= u && forall i :: 0 <= i < |ops| ==> ops[i].at <= t
    ensures SumAt(rule.f, ops, u) == rule.f(u - t, SumAt(rule.f, ops, t))
  {
    if rule.on { SumFades(rule.f, ops, t, u); } else { PlainSum(rule.f, ops, t, u); }
  }

  lemma SumNow(rule: Rule, ops: seq<Op>)
    requires RuleOk(rule) && ops != []
    ensures var front, op := ops[..|ops| - 1], ops[|ops| - 1];
            SumAt(rule.f, ops, op.at) == SumAt(rule.f, front, op.at) + if op.Add? then op.sample else 0.0
  {
    var op := ops[|ops| - 1];
    if op.Add? && rule.on { assert AtOnce(rule.f, op.sample); }
  }

  lemma {:induction false} RunTracks(rule: Rule, t0: nat, ops: seq<Op>)
    requires RuleOk(rule) && rule.clock == Micros && InOrder(t0, ops)
    ensures Tracks(rule, Run(rule, t0, ops), SumAt(rule.f, ops, LastTime(t0, ops)), LastTime(t0, ops),
                   Steady(rule.f, t0, ops, LastTime(t0, ops)))
    decreases |ops|
  {
    if ops != [] {
      var front, op := ops[..|ops| - 1], ops[|ops| - 1];
      var now := LastTime(t0, front);
      RunTracks(rule, t0, front);
      UpToLast(t0, front);
      SumLater(rule, front, now, op.at);
      SumNow(rule, ops);
      TracksStep(rule, Run(rule, t0, front), SumAt(rule.f, front, now), now, Steady(rule.f, t0, front, now), op);
    }
  }

  lemma RuleIsExact(rule: Rule, t0: nat, ops: seq<Op>, t: nat)
    requires RuleOk(rule) && rule.clock == Micros && InOrder(t0, ops) && LastTime(t0, ops) <= t
    ensures ValueAt(rule, Run(rule, t0, ops), t) <= SumAt(rule.f, ops, t)
    ensures ValueAt(rule, Run(rule, t0, ops), t) == SumAt(rule.f, ops, t) <==> !rule.on || Steady(rule.f, t0, ops, t)
  {
    var now := LastTime(t0, ops);
    RunTracks(rule, t0, ops);
    UpToLast(t0, ops);
    SumLater(rule, ops, now, t);
    TracksLater(rule, Run(rule, t0, ops), SumAt(rule.f, ops, now), now, Steady(rule.f, t0, ops, now), t);
  }

  // ----- samples that are not negative -----

  lemma {:induction false} SumNonNegative(f: Fading, ops: seq<Op>, t: nat)
    requires Lawful(f) && NonNegative(ops)
    ensures SumAt(f, ops, t) >= 0.0
    decreases |ops|
  {
    if ops != [] {
      var op := ops[|ops| - 1];
      SumNonNegative(f, ops[..|ops| - 1], t);
      if op.Add? && op.at <= t { FadeSigns(f, t - op.at, op.sample); }
    }
  }

  lemma {:induction false} NonNegativeIsSteady(f: Fading, t0: nat, ops: seq<Op>, t: nat)
    requires Lawful(f) && NonNegative(ops)
    ensures Steady(f, t0, ops, t)
    decreases |ops|
  {
    SumNonNegative(f, ops, LastTime(t0, ops));
    if ops != [] { NonNegativeIsSteady(f, t0, ops[..|ops| - 1], ops[|ops| - 1].at); }
  }

  // ----- bounds -----

  /** The samples added at one microsecond. */
  function AtTick(ops: seq<Op>, u: nat): real {
    if ops == [] then 0.0
    else
      var op := ops[|ops| - 1];
      AtTick(ops[..|ops| - 1], u) + if op.Add? && op.at == u then op.sample else 0.0
  }

  /** The sum taken microsecond by microsecond, for those before n. */
  function ByTicks(f: Fading, ops: seq<Op>, t: nat, n: nat): real
    requires n <= t + 1
  {
    if n == 0 then 0.0 else ByTicks(f, ops, t, n - 1) + f(t + 1 - n, AtTick(ops, n - 1))
  }

  lemma {:induction false} TicksOfNone(f: Fading, t: nat, n: nat)
    requires Lawful(f) && n <= t + 1
    ensures ByTicks(f, [], t, n) == 0.0
    decreases n
  {
    if n > 0 {
      TicksOfNone(f, t, n - 1);
      FadeZero(f, t + 1 - n);
    }
  }

  lemma {:induction false} TicksSnoc(f: Fading, ops: seq<Op>, t: nat, n: nat)
    requires Lawful(f) && n <= t + 1 && ops != []
    ensures var op := ops[|ops| - 1];
            ByTicks(f, ops, t, n) == ByTicks(f, ops[..|ops| - 1], t, n) + if op.at < n then Term(f, op, t) else 0.0
    decreases n
  {
    if n > 0 {
      var front, op := ops[..|ops| - 1], ops[|ops| - 1];
      TicksSnoc(f, ops, t, n - 1);
      var extra := if op.Add? && op.at == n - 1 then op.sample else 0.0;
      assert Additive(f, t + 1 - n, AtTick(front, n - 1), extra);
      FadeZero(f, t + 1 - n);
      assert op.at == n - 1 ==> t - op.at == t + 1 - n;
    }
  }

  lemma {:induction false} SumByTicks(f: Fading, ops: seq<Op>, t: nat)
    requires Lawful(f)
    ensures SumAt(f, ops, t) == ByTicks(f, ops, t, t + 1)
    decreases |ops|
  {
    if ops == [] {
      TicksOfNone(f, t, t + 1);
    } else {
      SumByTicks(f, ops[..|ops| - 1], t);
      TicksSnoc(f, ops, t, t + 1);
    }
  }

  /** A level that loses `most` in one microsecond is never exceeded by samples of at most `most` a microsecond. */
  lemma {:induction false} TicksBound(f: Fading, ops: seq<Op>, t: nat, n: nat, most: real, level: real)
    requires Lawful(f) && n <= t + 1 && (forall u: nat :: AtTick(ops, u) <= most) && level - f(1, level) == most
    ensures ByTicks(f, ops, t, n) <= f(t + 1 - n, level) - f(t + 1, level)
    decreases n
  {
    if n > 0 {
      TicksBound(f, ops, t, n - 1, most, level);
      var k := t + 1 - n;
      if AtTick(ops, n - 1) < most { FadeOrders(f, k, AtTick(ops, n - 1), most); }
      FadeNegates(f, k, f(1, level));
      assert Additive(f, k, level, -f(1, level));
      assert Composes(f, 1, k, level);
    }
  }

  lemma SumIsBounded(f: Fading, ops: seq<Op>, t: nat, most: real, level: real)
    requires Lawful(f) && (forall u: nat :: AtTick(ops, u) <= most) && level - f(1, level) == most && level >= 0.0
    ensures SumAt(f, ops, t) <= level
  {
    SumByTicks(f, ops, t);
    TicksBound(f, ops, t, t + 1, most, level);
    assert AtOnce(f, level);
    FadeSigns(f, t + 1, level);
  }

  lemma Level(r: real, most: real)
    requires 0.0 < r < 1.0 && most >= 0.0
    ensures var level := most / (1.0 - r); level >= 0.0 && level - Fade(Factor(r))(1, level) == most
  {
    var level := most / (1.0 - r);
    assert level * (1.0 - r) == most;
    assert Pow(r, 1) == r * Pow(r, 0) == r;
    assert level * (1.0 - r) == level - level * r;
    if level < 0.0 { ScaleOrder(level, 0.0, 1.0 - r); }
  }
}
