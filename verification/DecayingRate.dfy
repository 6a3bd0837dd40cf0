/** The exponentially decaying rate counter (crates/aiondb-admission/src/decay_rate.rs).

    Values are real numbers, where the source has f64. The decay over n microseconds is r^n, where
    r = 0.5^(1 / half-life in microseconds), so 0 < r < 1 when the half-life is positive; a half-life that is not
    positive switches decay off. Clock readings are in nanoseconds. The counter rounds the time between two of them down
    to whole microseconds and keeps the later one as it is, so that what was rounded off is never made up for. */
module DecayingRates {
  import opened Fadings

  /** The unit of a clock: the counter's clock counts nanoseconds; one that counts microseconds loses nothing. */
  datatype Clock = Micros | Nanos

  /** Whole microseconds from one clock reading to another, none if it is earlier. */
  function Between(clock: Clock, a: nat, b: nat): nat {
    if b < a then 0 else if clock.Micros? then b - a else (b - a) / 1000
  }

  /** A counter's behaviour: whether it decays, how, and by which clock. */
  datatype Rule = Rule(on: bool, f: Fading, clock: Clock)

  function RuleOf(d: Decay): Rule { Rule(d.Factor?, Fade(d), Nanos) }

  ghost predicate RuleOk(rule: Rule) { if rule.on then Lawful(rule.f) else Keeps(rule.f) }

  lemma DecayIsOk(d: Decay)
    requires DecayOk(d)
    ensures RuleOk(RuleOf(d))
  {
    DecayIsLawful(d);
  }

  datatype State = State(value: real, last: nat)

  function Faded(rule: Rule, s: State, now: nat): real {
    if s.value > 0.0 && rule.on then rule.f(Between(rule.clock, s.last, now), s.value) else s.value
  }

  function Added(rule: Rule, s: State, now: nat, sample: real): State { State(Faded(rule, s, now) + sample, now) }

  function Read(rule: Rule, s: State, now: nat): State {
    if s.value > 0.0 && rule.on then State(Faded(rule, s, now), now) else s
  }

  /** The value a read at time t returns. */
  function ValueAt(rule: Rule, s: State, t: nat): real { Read(rule, s, t).value }

  /** No microsecond is lost by stopping at `now` on the way from `last` to t. */
  predicate Even(last: nat, now: nat, t: nat) {
    Between(Nanos, last, now) + Between(Nanos, now, t) == Between(Nanos, last, t)
  }

  class DecayingRate {
    const decay: Decay
    var value: real
    var last: nat

    ghost function Value(): State
      reads this
    {
      State(value, last)
    }

    /** The value a read at time t would return. */
    ghost function Reading(t: nat): real
      reads this
    {
      ValueAt(RuleOf(decay), Value(), t)
    }

    constructor (decay: Decay, now: nat)
      ensures this.decay == decay && Value() == State(0.0, now)
    {
      this.decay := decay;
      value, last := 0.0, now;
    }

    method Add(now: nat, sample: real)
      modifies this
      ensures Value() == Added(RuleOf(decay), old(Value()), now, sample)
      ensures DecayOk(decay) && old(last) <= now && old(value) >= 0.0 && sample >= 0.0 ==>
                forall t: nat :: now <= t ==>
                  var sum := old(Reading(t)) + Fade(decay)(Between(Nanos, now, t), sample);
                  && Reading(t) >= sum
                  && (Reading(t) == sum <==> decay.Off? || old(value) == 0.0 || Even(old(last), now, t))
    {
      AddRaisesAll(decay, Value(), now, sample);
      var elapsed := if now >= last then (now - last) / 1000 else 0;
      if value > 0.0 && decay.Factor? {
        value := value * Pow(decay.r, elapsed);
      }
      value := value + sample;
      last := now;
    }

    method Current(now: nat) returns (r: real)
      modifies this
      ensures Value() == Read(RuleOf(decay), old(Value()), now) && r == old(Reading(now))
      ensures DecayOk(decay) && old(last) <= now ==>
                forall t: nat :: now <= t ==>
                  && Reading(t) >= old(Reading(t))
                  && (Reading(t) == old(Reading(t)) <==> decay.Off? || old(value) <= 0.0 || Even(old(last), now, t))
    {
      ReadKeepsAll(decay, Value(), now);
      var elapsed := if now >= last then (now - last) / 1000 else 0;
      if value > 0.0 && decay.Factor? {
        value := value * Pow(decay.r, elapsed);
        last := now;
      }
      return value;
    }
  }

  // ----- what one call does to later readings -----

  lemma RoundedPartsAreLess(a: nat, b: nat, c: nat)
    requires a <= b <= c
    ensures Between(Nanos, a, b) + Between(Nanos, b, c) <= Between(Nanos, a, c)
  {
  }

  /** Fading in two stretches, the way a call in between makes it happen, fades no more than in one. */
  lemma FadesInTwo(f: Fading, last: nat, now: nat, t: nat, v: real)
    requires Lawful(f) && last <= now <= t && v >= 0.0
    ensures var twice := f(Between(Nanos, now, t), f(Between(Nanos, last, now), v));
            var once := f(Between(Nanos, last, t), v);
            twice >= once && (twice == once <==> v == 0.0 || Even(last, now, t))
  {
    var m, n := Between(Nanos, last, now), Between(Nanos, now, t);
    RoundedPartsAreLess(last, now, t);
    assert Composes(f, m, n, v);
    FadeStrictly(f, m + n, Between(Nanos, last, t), v);
  }

  /** A read never lowers a later reading, and leaves it alone exactly when it loses no time. */
  lemma ReadKeeps(rule: Rule, s: State, now: nat, t: nat)
    requires RuleOk(rule) && rule.clock == Nanos && s.last <= now <= t
    ensures var after, before := ValueAt(rule, Read(rule, s, now), t), ValueAt(rule, s, t);
            after >= before && (after == before <==> !rule.on || s.value <= 0.0 || Even(s.last, now, t))
  {
    if rule.on && s.value > 0.0 {
      FadesInTwo(rule.f, s.last, now, t, s.value);
      assert Shrinks(rule.f, Between(Nanos, s.last, now), s.value);
    }
  }

  lemma ReadKeepsAll(d: Decay, s: State, now: nat)
    ensures DecayOk(d) && s.last <= now ==>
              forall t: nat :: now <= t ==>
                var after, before := ValueAt(RuleOf(d), Read(RuleOf(d), s, now), t), ValueAt(RuleOf(d), s, t);
                after >= before && (after == before <==> d.Off? || s.value <= 0.0 || Even(s.last, now, t))
  {
    if DecayOk(d) && s.last <= now {
      DecayIsOk(d);
      forall t: nat | now <= t
        ensures var after, before := ValueAt(RuleOf(d), Read(RuleOf(d), s, now), t), ValueAt(RuleOf(d), s, t);
                after >= before && (after == before <==> d.Off? || s.value <= 0.0 || Even(s.last, now, t))
      {
        ReadKeeps(RuleOf(d), s, now, t);
      }
    }
  }

  /** After a sample, what is left of the value and what is left of the sample are read together. */
  lemma AddedReads(rule: Rule, s: State, now: nat, sample: real, t: nat)
    requires RuleOk(rule) && rule.on && now <= t && s.value >= 0.0 && sample >= 0.0
    ensures var n, w := Between(rule.clock, now, t), Faded(rule, s, now);
            w >= 0.0 && ValueAt(rule, Added(rule, s, now, sample), t) == rule.f(n, w) + rule.f(n, sample)
  {
    var n, w := Between(rule.clock, now, t), Faded(rule, s, now);
    assert Shrinks(rule.f, Between(rule.clock, s.last, now), s.value);
    assert Additive(rule.f, n, w, sample);
    FadeZero(rule.f, n);
  }

  /** A sample raises every later reading by at least what is left of it then, and by exactly that when no time is
      lost. */
  lemma AddRaises(rule: Rule, s: State, now: nat, sample: real, t: nat)
    requires RuleOk(rule) && rule.clock == Nanos && s.last <= now <= t && s.value >= 0.0 && sample >= 0.0
    ensures var after, sum := ValueAt(rule, Added(rule, s, now, sample), t),
                              ValueAt(rule, s, t) + rule.f(Between(Nanos, now, t), sample);
            after >= sum && (after == sum <==> !rule.on || s.value == 0.0 || Even(s.last, now, t))
  {
    if rule.on {
      AddedReads(rule, s, now, sample, t);
      FadesInTwo(rule.f, s.last, now, t, s.value);
      FadeZero(rule.f, Between(Nanos, now, t));
    }
  }

  lemma AddRaisesAll(d: Decay, s: State, now: nat, sample: real)
    ensures DecayOk(d) && s.last <= now && s.value >= 0.0 && sample >= 0.0 ==>
              forall t: nat :: now <= t ==>
                var after, sum := ValueAt(RuleOf(d), Added(RuleOf(d), s, now, sample), t),
                                  ValueAt(RuleOf(d), s, t) + Fade(d)(Between(Nanos, now, t), sample);
                after >= sum && (after == sum <==> d.Off? || s.value == 0.0 || Even(s.last, now, t))
  {
    if DecayOk(d) && s.last <= now && s.value >= 0.0 && sample >= 0.0 {
      DecayIsOk(d);
      forall t: nat | now <= t
        ensures var after, sum := ValueAt(RuleOf(d), Added(RuleOf(d), s, now, sample), t),
                                  ValueAt(RuleOf(d), s, t) + Fade(d)(Between(Nanos, now, t), sample);
                after >= sum && (after == sum <==> d.Off? || s.value == 0.0 || Even(s.last, now, t))
      {
        AddRaises(RuleOf(d), s, now, sample, t);
      }
    }
  }

  // ----- runs -----

  datatype Op = Add(at: nat, sample: real) | Peek(at: nat)

  function Step(rule: Rule, s: State, op: Op): State {
    match op
    case Add(now, sample) => Added(rule, s, now, sample)
    case Peek(now) => Read(rule, s, now)
  }

  /** The state after a run of calls on a counter made at time t0. */
  function Run(rule: Rule, t0: nat, ops: seq<Op>): State {
    if ops == [] then State(0.0, t0) else Step(rule, Run(rule, t0, ops[..|ops| - 1]), ops[|ops| - 1])
  }

  predicate InOrder(t0: nat, ops: seq<Op>) {
    && (forall i :: 0 <= i < |ops| ==> t0 <= ops[i].at)
    && (forall i, j :: 0 <= i < j < |ops| ==> ops[i].at <= ops[j].at)
  }

  predicate NonNegative(ops: seq<Op>) { forall i :: 0 <= i < |ops| && ops[i].Add? ==> ops[i].sample >= 0.0 }

  function LastTime(t0: nat, ops: seq<Op>): nat { if ops == [] then t0 else ops[|ops| - 1].at }

  lemma UpToLast(t0: nat, ops: seq<Op>)
    requires InOrder(t0, ops)
    ensures forall i :: 0 <= i < |ops| ==> ops[i].at <= LastTime(t0, ops)
  {
  }

  function Total(ops: seq<Op>): real {
    if ops == [] then 0.0 else Total(ops[..|ops| - 1]) + if ops[|ops| - 1].Add? then ops[|ops| - 1].sample else 0.0
  }

  lemma {:induction false} RuleIsBounded(rule: Rule, t0: nat, ops: seq<Op>)
    requires RuleOk(rule) && NonNegative(ops)
    ensures 0.0 <= Run(rule, t0, ops).value <= Total(ops)
    decreases |ops|
  {
    if ops != [] {
      var front, op := ops[..|ops| - 1], ops[|ops| - 1];
      RuleIsBounded(rule, t0, front);
      var s := Run(rule, t0, front);
      if rule.on { FadeSigns(rule.f, Between(rule.clock, s.last, op.at), s.value); }
    }
  }

  /** Even with times out of order, as racing callers produce them, the reading stays between zero and the total. */
  lemma AnyOrderIsBounded(d: Decay, t0: nat, ops: seq<Op>)
    requires DecayOk(d) && NonNegative(ops)
    ensures 0.0 <= Run(RuleOf(d), t0, ops).value <= Total(ops)
  {
    DecayIsOk(d);
    RuleIsBounded(RuleOf(d), t0, ops);
  }
}
