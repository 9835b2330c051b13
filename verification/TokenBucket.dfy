/**
  * The per-provider rate limiter of src/health.rs: a token bucket that refills continuously,
  * holds at most one second's worth, and can be peeked at or reconfigured. Times are seconds;
  * f64 is modelled by `real`.
  */
module TokenBucket {
  /** The bucket as a value. */
  datatype Bucket = Bucket(tokens: real, capacity: real, rate: real, last: real)

  function RMin(a: real, b: real): real {
    if a <= b then a else b
  }

  ghost predicate Valid(b: Bucket) {
    0.0 <= b.tokens <= b.capacity && b.rate >= 0.0
  }

  /** What accrues at `rate` between two times. */
  function Span(from: real, to: real, rate: real): real {
    (to - from) * rate
  }

  function Refilled(b: Bucket, now: real): Bucket {
    if now > b.last
    then b.(tokens := RMin(b.tokens + Span(b.last, now, b.rate), b.capacity), last := now)
    else b
  }

  function Acquired(b: Bucket, now: real): (Bucket, bool) {
    var b := Refilled(b, now);
    if b.tokens >= 1.0 then (b.(tokens := b.tokens - 1.0), true) else (b, false)
  }

  function Reconfigured(b: Bucket, now: real, maxRps: nat): Bucket {
    var b := Refilled(b, now);
    Bucket(RMin(b.tokens, maxRps as real), maxRps as real, maxRps as real, b.last)
  }

  function Fresh(maxRps: nat, now: real): Bucket {
    Bucket(maxRps as real, maxRps as real, maxRps as real, now)
  }

  class Limiter {
    var tokens: real
    var capacity: real
    var rate: real
    var last: real

    ghost function Abs(): Bucket
      reads this
    {
      Bucket(tokens, capacity, rate, last)
    }

    constructor (maxRps: nat, now: real)
      ensures Abs() == Fresh(maxRps, now)
    {
      tokens, capacity, rate := maxRps as real, maxRps as real, maxRps as real;
      last := now;
    }

    method Refill(now: real)
      modifies this
      ensures Abs() == Refilled(old(Abs()), now)
    {
      var elapsed := if now > last then now - last else 0.0;
      if elapsed > 0.0 {
        tokens := RMin(tokens + Span(last, now, rate), capacity);
        last := now;
      }
    }

    method TryAcquire(now: real) returns (granted: bool)
      modifies this
      ensures (Abs(), granted) == Acquired(old(Abs()), now)
    {
      Refill(now);
      granted := tokens >= 1.0;
      if granted {
        tokens := tokens - 1.0;
      }
    }

    method HasCapacity(now: real) returns (available: bool)
      modifies this
      ensures Abs() == Refilled(old(Abs()), now)
      ensures available <==> Acquired(old(Abs()), now).1
    {
      Refill(now);
      available := tokens >= 1.0;
    }

    method Reconfigure(now: real, maxRps: nat)
      modifies this
      ensures Abs() == Reconfigured(old(Abs()), now, maxRps)
    {
      Refill(now);
      capacity, rate := maxRps as real, maxRps as real;
      tokens := RMin(tokens, maxRps as real);
    }
  }

  // ----- runs

  datatype Op = Acquire(at: real) | Peek(at: real) | Reconfigure(at: real, maxRps: nat)

  function Step(b: Bucket, op: Op): Bucket {
    match op
    case Acquire(at) => Acquired(b, at).0
    case Peek(at) => Refilled(b, at)
    case Reconfigure(at, maxRps) => Reconfigured(b, at, maxRps)
  }

  function After(b: Bucket, ops: seq<Op>): Bucket
    decreases |ops|
  {
    if ops == [] then b else After(Step(b, ops[0]), ops[1..])
  }

  /** The results of the acquires of a run, in order. */
  function Results(b: Bucket, ops: seq<Op>): seq<bool>
    decreases |ops|
  {
    if ops == [] then []
    else (if ops[0].Acquire? then [Acquired(b, ops[0].at).1] else []) + Results(Step(b, ops[0]), ops[1..])
  }

  function Grants(results: seq<bool>): nat {
    if results == [] then 0 else (if results[0] then 1 else 0) + Grants(results[1..])
  }

  lemma GrantsCons(first: seq<bool>, rest: seq<bool>)
    requires |first| <= 1
    ensures Grants(first + rest) == Grants(first) + Grants(rest)
  {
    if |first| == 1 {
      assert (first + rest)[1..] == rest && first[1..] == [];
    } else {
      assert first + rest == rest;
    }
  }

  /** Rate times the time that passes in one step. */
  function Gain(b: Bucket, op: Op): real {
    Span(b.last, Step(b, op).last, b.rate)
  }

  /** The sum of rate times elapsed time over a run, at the rate in force at the time. */
  function Accrued(b: Bucket, ops: seq<Op>): real
    decreases |ops|
  {
    if ops == [] then 0.0 else Gain(b, ops[0]) + Accrued(Step(b, ops[0]), ops[1..])
  }

  // ----- bounds

  lemma SpanNonNegative(from: real, to: real, rate: real)
    requires from <= to && rate >= 0.0
    ensures Span(from, to, rate) >= 0.0
  {
  }

  lemma RefillBounds(b: Bucket, now: real)
    requires Valid(b)
    ensures Valid(Refilled(b, now))
    ensures Refilled(b, now).last >= b.last
    ensures b.tokens <= Refilled(b, now).tokens <= b.tokens + Span(b.last, Refilled(b, now).last, b.rate)
  {
    if now > b.last {
      SpanNonNegative(b.last, now, b.rate);
    }
  }

  function Granted(b: Bucket, op: Op): nat {
    if op.Acquire? && Acquired(b, op.at).1 then 1 else 0
  }

  /** No step creates tokens beyond what time accrues, and a grant costs one. */
  lemma StepBounds(b: Bucket, op: Op)
    requires Valid(b)
    ensures Valid(Step(b, op)) && Step(b, op).last >= b.last
    ensures Step(b, op).tokens + Granted(b, op) as real <= b.tokens + Gain(b, op)
  {
    RefillBounds(b, op.at);
  }

  lemma RunUnfolds(b: Bucket, ops: seq<Op>)
    requires ops != []
    ensures After(b, ops) == After(Step(b, ops[0]), ops[1..])
    ensures Grants(Results(b, ops)) == Granted(b, ops[0]) + Grants(Results(Step(b, ops[0]), ops[1..]))
    ensures Accrued(b, ops) == Gain(b, ops[0]) + Accrued(Step(b, ops[0]), ops[1..])
  {
    var first := if ops[0].Acquire? then [Acquired(b, ops[0].at).1] else [];
    GrantsCons(first, Results(Step(b, ops[0]), ops[1..]));
    assert ops[0].Acquire? ==> first[1..] == [] && Grants(first) == if first[0] then 1 else 0;
  }

  lemma Chain(t0: real, t1: real, t2: real, g: nat, h: nat, gain: real, accrued: real)
    requires t1 + g as real <= t0 + gain
    requires t2 + h as real <= t1 + accrued
    ensures t2 + (g + h) as real <= t0 + (gain + accrued)
  {
  }

  /**
    * Over any run of acquires, peeks and reconfigures at any times, the grants never exceed the
    * starting tokens plus the sum of rate times elapsed time, and the level stays in bounds.
    */
  lemma {:induction false} GrantsBounded(b: Bucket, ops: seq<Op>)
    requires Valid(b)
    ensures Valid(After(b, ops))
    ensures After(b, ops).tokens + Grants(Results(b, ops)) as real <= b.tokens + Accrued(b, ops)
    decreases |ops|
  {
    if ops != [] {
      var b', rest := Step(b, ops[0]), ops[1..];
      StepBounds(b, ops[0]);
      GrantsBounded(b', rest);
      RunUnfolds(b, ops);
      Chain(b.tokens, b'.tokens, After(b', rest).tokens, Granted(b, ops[0]), Grants(Results(b', rest)),
            Gain(b, ops[0]), Accrued(b', rest));
    }
  }

  ghost predicate NeverReconfigured(ops: seq<Op>) {
    forall i | 0 <= i < |ops| :: !ops[i].Reconfigure?
  }

  lemma SumOfSpans(a: real, b: real, c: real, rate: real)
    ensures Span(a, b, rate) + Span(b, c, rate) == Span(a, c, rate)
  {
  }

  lemma RateFixed(b: Bucket, op: Op)
    requires !op.Reconfigure?
    ensures Step(b, op).rate == b.rate
  {
  }

  lemma {:induction false} AccruedAtFixedRate(b: Bucket, ops: seq<Op>)
    requires NeverReconfigured(ops)
    ensures Accrued(b, ops) == Span(b.last, After(b, ops).last, b.rate)
    decreases |ops|
  {
    if ops != [] {
      var b', rest := Step(b, ops[0]), ops[1..];
      assert !ops[0].Reconfigure?;
      RateFixed(b, ops[0]);
      RunUnfolds(b, ops);
      AccruedAtFixedRate(b', rest);
      SumOfSpans(b.last, b'.last, After(b', rest).last, b.rate);
    }
  }

  /** One second's worth, and `cap` for every second that passes. */
  function Allowance(cap: real, start: real, end: real): real {
    cap * (1.0 + (end - start))
  }

  /** At a fixed cap: at most `max_rps * (1 + elapsed)` grants. */
  lemma GrantsAtFixedCap(maxRps: nat, start: real, ops: seq<Op>)
    requires NeverReconfigured(ops)
    ensures var b := Fresh(maxRps, start);
            Grants(Results(b, ops)) as real <= Allowance(maxRps as real, start, After(b, ops).last)
  {
    var b := Fresh(maxRps, start);
    GrantsBounded(b, ops);
    AccruedAtFixedRate(b, ops);
    OneSecondPlus(maxRps as real, start, After(b, ops).last, After(b, ops).tokens, Grants(Results(b, ops)) as real);
  }

  lemma OneSecondPlus(cap: real, start: real, end: real, tokens: real, grants: real)
    requires tokens >= 0.0 && tokens + grants <= cap + Span(start, end, cap)
    ensures grants <= Allowance(cap, start, end)
  {
  }

  // ----- peeks are invisible

  /** Times never run backwards. */
  ghost predicate Ordered(ops: seq<Op>) {
    forall i, j | 0 <= i < j < |ops| :: ops[i].at <= ops[j].at
  }

  function WithoutPeeks(ops: seq<Op>): seq<Op> {
    if ops == [] then []
    else (if ops[0].Peek? then [] else [ops[0]]) + WithoutPeeks(ops[1..])
  }

  /** The two buckets cannot be told apart from time `t` on. */
  ghost predicate Alike(a: Bucket, b: Bucket, t: real) {
    a.last <= t && b.last <= t && Refilled(a, t) == Refilled(b, t)
  }

  lemma RefillTwice(b: Bucket, t: real, u: real)
    requires Valid(b) && t <= u
    ensures Refilled(Refilled(b, t), u) == Refilled(b, u)
  {
    if b.last < t < u {
      SumOfSpans(b.last, t, u, b.rate);
      SpanNonNegative(b.last, t, b.rate);
      SpanNonNegative(t, u, b.rate);
    }
  }

  lemma AlikeLater(a: Bucket, b: Bucket, t: real, u: real)
    requires Valid(a) && Valid(b) && t <= u && Alike(a, b, t)
    ensures Alike(a, b, u)
  {
    RefillTwice(a, t, u);
    RefillTwice(b, t, u);
  }

  lemma SameStep(a: Bucket, b: Bucket, op: Op)
    requires Alike(a, b, op.at) && !op.Peek?
    ensures Step(a, op) == Step(b, op) && Step(a, op).last <= op.at
    ensures op.Acquire? ==> Acquired(a, op.at).1 == Acquired(b, op.at).1
  {
  }

  lemma {:induction false} PeeksInvisibleFrom(a: Bucket, b: Bucket, ops: seq<Op>, t: real)
    requires Valid(a) && Valid(b) && Alike(a, b, t)
    requires Ordered(ops) && (ops != [] ==> t <= ops[0].at)
    ensures Results(a, ops) == Results(b, WithoutPeeks(ops))
    decreases |ops|
  {
    if ops != [] {
      var op := ops[0];
      AlikeLater(a, b, t, op.at);
      StepBounds(a, op);
      StepBounds(b, op);
      assert ops[1..] != [] ==> ops[1..][0] == ops[1] && ops[0].at <= ops[1].at;
      if op.Peek? {
        RefillTwice(a, op.at, op.at);
        assert WithoutPeeks(ops) == WithoutPeeks(ops[1..]);
        PeeksInvisibleFrom(Step(a, op), b, ops[1..], op.at);
      } else {
        assert ([op] + WithoutPeeks(ops[1..]))[1..] == WithoutPeeks(ops[1..]);
        SameStep(a, b, op);
        PeeksInvisibleFrom(Step(a, op), Step(b, op), ops[1..], op.at);
      }
    }
  }

  /** Inserting or removing peeks anywhere never changes an acquire's result. */
  lemma PeeksInvisible(b: Bucket, ops: seq<Op>, more: seq<Op>)
    requires Valid(b) && Ordered(ops) && Ordered(more)
    requires ops != [] ==> b.last <= ops[0].at
    requires more != [] ==> b.last <= more[0].at
    requires WithoutPeeks(ops) == WithoutPeeks(more)
    ensures Results(b, ops) == Results(b, more)
  {
    PeeksInvisibleFrom(b, b, ops, b.last);
    PeeksInvisibleFrom(b, b, more, b.last);
  }

  // ----- what must be granted

  /** Once a whole token has accrued since the last operation, an acquire is granted, whatever came before. */
  lemma GrantedAfterWait(b: Bucket, ops: seq<Op>, at: real)
    requires Valid(b) && After(b, ops).capacity >= 1.0
    requires at > After(b, ops).last && Span(After(b, ops).last, at, After(b, ops).rate) >= 1.0
    ensures Acquired(After(b, ops), at).1
  {
    GrantsBounded(b, ops);
    GrantedOnceAccrued(After(b, ops), at);
  }

  lemma GrantedOnceAccrued(b: Bucket, at: real)
    requires Valid(b) && b.capacity >= 1.0 && at > b.last && Span(b.last, at, b.rate) >= 1.0
    ensures Acquired(b, at).1
  {
    assert b.tokens + Span(b.last, at, b.rate) >= 1.0;
  }

  /** At one cap of at least one, that is after a wait of `1 / max_rps` seconds. */
  lemma WaitForOneToken(maxRps: nat, from: real, to: real)
    requires maxRps >= 1 && to - from >= 1.0 / maxRps as real
    ensures Span(from, to, maxRps as real) >= 1.0
  {
    var r, d := maxRps as real, to - from;
    assert 1.0 / r * r == 1.0;
    assert (d - 1.0 / r) * r >= 0.0;
  }

  /** `n` acquires at the same moment. */
  function Burst(n: nat, at: real): (ops: seq<Op>)
    ensures |ops| == n
  {
    if n == 0 then [] else [Acquire(at)] + Burst(n - 1, at)
  }

  function Least(a: nat, b: nat): nat {
    if a <= b then a else b
  }

  lemma {:induction false} BurstFrom(b: Bucket, whole: nat, n: nat, at: real)
    requires b.last == at && b.tokens == whole as real
    ensures Grants(Results(b, Burst(n, at))) == Least(n, whole)
    decreases n
  {
    if n > 0 {
      var ops := Burst(n, at);
      assert ops[0] == Acquire(at) && ops[1..] == Burst(n - 1, at);
      RunUnfolds(b, ops);
      if whole > 0 {
        BurstFrom(Step(b, ops[0]), whole - 1, n - 1, at);
      } else {
        BurstFrom(Step(b, ops[0]), 0, n - 1, at);
      }
    }
  }

  /** A new limiter grants exactly its cap at once, and no more. */
  lemma BurstIsCap(maxRps: nat, n: nat, at: real)
    ensures Grants(Results(Fresh(maxRps, at), Burst(n, at))) == Least(n, maxRps)
  {
    BurstFrom(Fresh(maxRps, at), maxRps, n, at);
  }

  /** A new cap neither hands out tokens nor takes any that fit under it. */
  lemma ReconfigureKeepsLevel(b: Bucket, now: real, maxRps: nat)
    requires Valid(b)
    ensures var level, kept := Refilled(b, now).tokens, Reconfigured(b, now, maxRps).tokens;
            kept == (if level <= maxRps as real then level else maxRps as real)
    ensures b.tokens <= maxRps as real ==> b.tokens <= Reconfigured(b, now, maxRps).tokens
  {
    RefillBounds(b, now);
  }
}
