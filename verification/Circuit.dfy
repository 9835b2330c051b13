/**
  * Provider health of src/health.rs: the sliding outcome window, the failure streak, the
  * probe-latency average and the circuit breaker, updated in place by every recorded outcome.
  * f64 is modelled by `real`; each record carries the clock readings it takes.
  */
module Circuit {
  import opened Common

  type Time = int

  datatype Sample = Success | Failure | Throttle

  datatype CircuitState = Closed | HalfOpen | Open

  datatype Config = Config(window: nat, openFailures: nat, errorThreshold: real, cooldown: nat)

  /** One recorded outcome, with the times read while pruning, pushing and judging. */
  datatype Record = Record(
    sample: Sample, latency: real, isProbe: bool, prunedAt: Time, pushedAt: Time, judgedAt: Time)

  type Window = seq<(Time, Sample)>

  datatype Inner = Inner(window: Window, streak: nat, ema: real, circuit: CircuitState, openedAt: Option<Time>)

  const NEW := Inner([], 0, 0.0, Closed, None)

  // ----- the window

  function Pruned(w: Window, cutoff: Time): Window {
    if w != [] && w[0].0 < cutoff then Pruned(w[1..], cutoff) else w
  }

  function Count(w: Window, s: Sample): (n: nat)
    ensures n <= |w|
  {
    if w == [] then 0 else (if w[0].1 == s then 1 else 0) + Count(w[1..], s)
  }

  function Ratio(a: nat, n: nat): real {
    if n == 0 then 0.0 else a as real / n as real
  }

  /** The fraction of outcomes that were not successes: drives the score. */
  function ErrorRate(w: Window): real {
    Ratio(|w| - Count(w, Success), |w|)
  }

  /** The fraction of hard failures, throttles excluded: drives the breaker. */
  function HardErrorRate(w: Window): real {
    Ratio(Count(w, Failure), |w|)
  }

  // ----- recording

  function NextStreak(streak: nat, s: Sample): nat {
    match s
    case Success => 0
    case Failure => streak + 1
    case Throttle => streak
  }

  function NextEma(ema: real, r: Record): real {
    if r.sample != Success || !r.isProbe then ema
    else if ema == 0.0 then r.latency
    else 0.85 * ema + 0.15 * r.latency
  }

  function Pushed(g: Inner, r: Record, cfg: Config): Inner {
    g.(window := Pruned(g.window, r.prunedAt - cfg.window) + [(r.pushedAt, r.sample)],
       streak := NextStreak(g.streak, r.sample),
       ema := NextEma(g.ema, r))
  }

  predicate ShouldOpen(g: Inner, cfg: Config) {
    g.streak >= cfg.openFailures || HardErrorRate(g.window) > cfg.errorThreshold
  }

  function Judged(g: Inner, now: Time, cfg: Config): Inner {
    match g.circuit
    case Closed => if ShouldOpen(g, cfg) then g.(circuit := Open, openedAt := Some(now)) else g
    case Open =>
      if g.openedAt.Some? && now - g.openedAt.value >= cfg.cooldown
      then g.(circuit := HalfOpen, openedAt := None) else g
    case HalfOpen =>
      if g.window == [] then g
      else match g.window[|g.window| - 1].1
        case Success => g.(circuit := Closed, openedAt := None)
        case Failure => g.(circuit := Open, openedAt := Some(now))
        case Throttle => g
  }

  function Recorded(g: Inner, r: Record, cfg: Config): Inner {
    Judged(Pushed(g, r, cfg), r.judgedAt, cfg)
  }

  class ProviderHealth {
    var window: Window
    var streak: nat
    var ema: real
    var circuit: CircuitState
    var openedAt: Option<Time>

    ghost function Abs(): Inner
      reads this
    {
      Inner(window, streak, ema, circuit, openedAt)
    }

    constructor ()
      ensures Abs() == NEW
    {
      window, streak, ema, circuit, openedAt := [], 0, 0.0, Closed, None;
    }

    method PruneWindow(cutoff: Time)
      modifies this`window
      ensures window == Pruned(old(window), cutoff)
    {
      while |window| > 0 && window[0].0 < cutoff
        invariant Pruned(window, cutoff) == Pruned(old(window), cutoff)
        decreases |window|
      {
        window := window[1..];
      }
    }

    method PushSample(r: Record, cfg: Config)
      modifies this
      ensures Abs() == Pushed(old(Abs()), r, cfg)
    {
      PruneWindow(r.prunedAt - cfg.window);
      window := window + [(r.pushedAt, r.sample)];
      match r.sample {
        case Success =>
          if r.isProbe {
            if ema == 0.0 {
              ema := r.latency;
            } else {
              ema := 0.85 * ema + 0.15 * r.latency;
            }
          }
          streak := 0;
        case Failure => streak := streak + 1;
        case Throttle =>
      }
    }

    method ApplyCircuitTransitions(now: Time, cfg: Config)
      modifies this`circuit, this`openedAt
      ensures Abs() == Judged(old(Abs()), now, cfg)
    {
      match circuit {
        case Closed =>
          if streak >= cfg.openFailures || HardErrorRate(window) > cfg.errorThreshold {
            circuit, openedAt := Open, Some(now);
          }
        case Open =>
          if openedAt.Some? && now - openedAt.value >= cfg.cooldown {
            circuit, openedAt := HalfOpen, None;
          }
        case HalfOpen =>
          if |window| > 0 {
            match window[|window| - 1].1 {
              case Success => circuit, openedAt := Closed, None;
              case Failure => circuit, openedAt := Open, Some(now);
              case Throttle =>
            }
          }
      }
    }

    method RecordOutcome(r: Record, cfg: Config)
      modifies this
      ensures Abs() == Recorded(old(Abs()), r, cfg)
    {
      PushSample(r, cfg);
      ApplyCircuitTransitions(r.judgedAt, cfg);
    }
  }

  // ----- histories

  function Replay(h: seq<Record>, cfg: Config): Inner {
    if h == [] then NEW else Recorded(Replay(h[..|h| - 1], cfg), h[|h| - 1], cfg)
  }

  /** The clock never runs backwards, within a record or between records. */
  ghost predicate InOrder(h: seq<Record>) {
    && (forall i | 0 <= i < |h| :: h[i].prunedAt <= h[i].pushedAt <= h[i].judgedAt)
    && (forall i, j | 0 <= i < j < |h| :: h[i].judgedAt <= h[j].prunedAt)
  }

  // ----- the window is a time filter of the whole history

  ghost function Since(h: seq<Record>, cutoff: Time): Window {
    if h == [] then []
    else
      var r := h[|h| - 1];
      Since(h[..|h| - 1], cutoff) + (if r.pushedAt >= cutoff then [(r.pushedAt, r.sample)] else [])
  }

  lemma {:induction false} PrunedSnoc(w: Window, x: (Time, Sample), cutoff: Time)
    requires x.0 >= cutoff
    ensures Pruned(w + [x], cutoff) == Pruned(w, cutoff) + [x]
  {
    if w != [] && w[0].0 < cutoff {
      assert (w + [x])[1..] == w[1..] + [x];
      PrunedSnoc(w[1..], x, cutoff);
    }
  }

  lemma {:induction false} AllOldIsEmpty(h: seq<Record>, cutoff: Time)
    requires forall i | 0 <= i < |h| :: h[i].pushedAt < cutoff
    ensures Since(h, cutoff) == []
  {
    if h != [] {
      AllOldIsEmpty(h[..|h| - 1], cutoff);
    }
  }

  lemma {:induction false} PrunedAll(w: Window, cutoff: Time)
    requires forall i | 0 <= i < |w| :: w[i].0 < cutoff
    ensures Pruned(w, cutoff) == []
  {
    if w != [] {
      PrunedAll(w[1..], cutoff);
    }
  }

  lemma {:induction false} SinceTimes(h: seq<Record>, cutoff: Time, bound: Time)
    requires forall i | 0 <= i < |h| :: h[i].pushedAt < bound
    ensures forall i | 0 <= i < |Since(h, cutoff)| :: Since(h, cutoff)[i].0 < bound
  {
    if h != [] {
      SinceTimes(h[..|h| - 1], cutoff, bound);
    }
  }

  lemma {:induction false} PrunedSince(h: seq<Record>, early: Time, late: Time)
    requires InOrder(h) && early <= late
    ensures Pruned(Since(h, early), late) == Since(h, late)
    decreases |h|
  {
    if h != [] {
      var before, r := h[..|h| - 1], h[|h| - 1];
      if r.pushedAt >= late {
        PrunedSince(before, early, late);
        PrunedSnoc(Since(before, early), (r.pushedAt, r.sample), late);
      } else {
        AllOldIsEmpty(h, late);
        SinceTimes(h, early, late);
        PrunedAll(Since(h, early), late);
      }
    }
  }

  /** After every record the pruned deque is exactly the history no older than the window. */
  lemma {:induction false} WindowIsTimeFilter(h: seq<Record>, cfg: Config)
    requires InOrder(h) && h != []
    ensures Replay(h, cfg).window == Since(h, h[|h| - 1].prunedAt - cfg.window)
    decreases |h|
  {
    var before, r := h[..|h| - 1], h[|h| - 1];
    var cutoff := r.prunedAt - cfg.window;
    var window := Replay(before, cfg).window;
    SplitLast(h);
    InOrderPrefix(h, before, r);
    if before != [] {
      WindowIsTimeFilter(before, cfg);
      PrunedSince(before, before[|before| - 1].prunedAt - cfg.window, cutoff);
    }
    assert Pruned(window, cutoff) == Since(before, cutoff);
    WindowStep(h, before, r, cfg);
    SinceStep(h, before, r, cutoff);
  }

  lemma InOrderPrefix(h: seq<Record>, before: seq<Record>, r: Record)
    requires InOrder(h) && h == before + [r]
    ensures InOrder(before) && r.prunedAt <= r.pushedAt
    ensures before != [] ==> before[|before| - 1].prunedAt <= r.prunedAt
  {
    assert h[|before|] == r;
    assert forall i | 0 <= i < |before| :: h[i] == before[i];
  }

  lemma WindowStep(h: seq<Record>, before: seq<Record>, r: Record, cfg: Config)
    requires h == before + [r]
    ensures Replay(h, cfg).window
         == Pruned(Replay(before, cfg).window, r.prunedAt - cfg.window) + [(r.pushedAt, r.sample)]
  {
    assert h[..|h| - 1] == before;
  }

  lemma SinceStep(h: seq<Record>, before: seq<Record>, r: Record, cutoff: Time)
    requires h == before + [r] && r.pushedAt >= cutoff
    ensures Since(h, cutoff) == Since(before, cutoff) + [(r.pushedAt, r.sample)]
  {
    assert h[..|h| - 1] == before;
  }

  // ----- the streak

  /** The outcomes that are not throttles. */
  ghost function Erased(h: seq<Record>): seq<Sample> {
    if h == [] then []
    else Erased(h[..|h| - 1]) + (if h[|h| - 1].sample == Throttle then [] else [h[|h| - 1].sample])
  }

  /** The last `n` outcomes are failures, and no longer run of them is. */
  ghost predicate TrailingFailures(s: seq<Sample>, n: nat) {
    && n <= |s|
    && (forall i | |s| - n <= i < |s| :: s[i] == Failure)
    && (n < |s| ==> s[|s| - n - 1] != Failure)
  }

  /** The counter is the trailing run of failures in the throttle-erased history. */
  lemma {:induction false} StreakIsTrailingFailures(h: seq<Record>, cfg: Config)
    ensures TrailingFailures(Erased(h), Replay(h, cfg).streak)
    decreases |h|
  {
    if h != [] {
      StreakIsTrailingFailures(h[..|h| - 1], cfg);
    }
  }

  // ----- the breaker

  /** Open exactly when an opening time is stored; Closed only below the streak threshold. */
  lemma {:induction false} BreakerInvariant(h: seq<Record>, cfg: Config)
    requires cfg.openFailures >= 1
    ensures var g := Replay(h, cfg);
            (g.circuit == Open <==> g.openedAt.Some?) && (g.circuit == Closed ==> g.streak < cfg.openFailures)
    decreases |h|
  {
    if h != [] {
      BreakerInvariant(h[..|h| - 1], cfg);
    }
  }

  /** What one record can do to the breaker. */
  lemma BreakerStep(h: seq<Record>, r: Record, cfg: Config)
    requires cfg.openFailures >= 1
    ensures var g, g' := Replay(h, cfg), Recorded(Replay(h, cfg), r, cfg);
      && (g.circuit == Open ==> g'.circuit == Open || g'.circuit == HalfOpen)
      && (g.circuit == Open && g'.circuit == HalfOpen <==>
            g.circuit == Open && g.openedAt.Some? && r.judgedAt - g.openedAt.value >= cfg.cooldown)
      && (g.circuit == HalfOpen ==>
            g'.circuit == (match r.sample case Success => Closed case Failure => Open case Throttle => HalfOpen))
      && (g.circuit == Closed ==> g'.circuit == Closed || g'.circuit == Open)
  {
    BreakerInvariant(h, cfg);
  }

  ghost predicate CoolsDownAt(h: seq<Record>, cfg: Config, k: int) {
    && 0 <= k < |h|
    && var g := Replay(h[..k], cfg);
    && g.circuit == Open && g.openedAt.Some? && h[k].judgedAt - g.openedAt.value >= cfg.cooldown
    && Replay(h[..k + 1], cfg).circuit == HalfOpen
  }

  ghost predicate RecoversAt(h: seq<Record>, cfg: Config, k: int) {
    && 0 <= k < |h|
    && Replay(h[..k], cfg).circuit == HalfOpen && h[k].sample == Success
    && Replay(h[..k + 1], cfg).circuit == Closed
  }

  lemma StepOf(h: seq<Record>, cfg: Config, k: nat)
    requires k < |h|
    ensures Replay(h[..k + 1], cfg) == Recorded(Replay(h[..k], cfg), h[k], cfg)
  {
    assert h[..k + 1][..k] == h[..k];
  }

  /** From not Closed to Closed there is a recorded success in HalfOpen on the way. */
  lemma {:induction false} RecoveryNeedsSuccess(h: seq<Record>, cfg: Config, i: nat, j: nat) returns (k: nat)
    requires cfg.openFailures >= 1
    requires i < j <= |h| && Replay(h[..i], cfg).circuit != Closed && Replay(h[..j], cfg).circuit == Closed
    ensures i <= k < j && RecoversAt(h, cfg, k)
    decreases j - i
  {
    NotClosedStep(h, cfg, i);
    if Replay(h[..i + 1], cfg).circuit == Closed {
      k := i;
    } else {
      k := RecoveryNeedsSuccess(h, cfg, i + 1, j);
    }
  }

  lemma NotClosedStep(h: seq<Record>, cfg: Config, i: nat)
    requires cfg.openFailures >= 1 && i < |h| && Replay(h[..i], cfg).circuit != Closed
    ensures Replay(h[..i + 1], cfg).circuit != Closed || RecoversAt(h, cfg, i)
  {
    StepOf(h, cfg, i);
    BreakerStep(h[..i], h[i], cfg);
  }

  /** From Open to HalfOpen there is a cooldown that has passed on the way. */
  lemma {:induction false} HalfOpenNeedsCooldown(h: seq<Record>, cfg: Config, i: nat, j: nat) returns (k: nat)
    requires cfg.openFailures >= 1
    requires i < j <= |h| && Replay(h[..i], cfg).circuit == Open && Replay(h[..j], cfg).circuit == HalfOpen
    ensures i <= k < j && CoolsDownAt(h, cfg, k)
    decreases j - i
  {
    OpenStep(h, cfg, i);
    if Replay(h[..i + 1], cfg).circuit == HalfOpen {
      k := i;
    } else {
      k := HalfOpenNeedsCooldown(h, cfg, i + 1, j);
    }
  }

  lemma OpenStep(h: seq<Record>, cfg: Config, i: nat)
    requires cfg.openFailures >= 1 && i < |h| && Replay(h[..i], cfg).circuit == Open
    ensures Replay(h[..i + 1], cfg).circuit == Open || CoolsDownAt(h, cfg, i)
  {
    StepOf(h, cfg, i);
    BreakerStep(h[..i], h[i], cfg);
  }

  /**
    * Over every run: an open circuit closes again only by way of HalfOpen, entered after the
    * cooldown, and only on a recorded success.
    */
  lemma OpenClosesOnlyThroughHalfOpen(h: seq<Record>, cfg: Config, i: nat, j: nat) returns (cool: nat, recover: nat)
    requires cfg.openFailures >= 1
    requires i < j <= |h| && Replay(h[..i], cfg).circuit == Open && Replay(h[..j], cfg).circuit == Closed
    ensures i <= cool < recover < j && CoolsDownAt(h, cfg, cool) && RecoversAt(h, cfg, recover)
  {
    recover := RecoveryNeedsSuccess(h, cfg, i, j);
    cool := HalfOpenNeedsCooldown(h, cfg, i, recover);
  }

  // ----- runs without failures

  ghost predicate FailureFree(h: seq<Record>) {
    forall i | 0 <= i < |h| :: h[i].sample != Failure
  }

  lemma {:induction false} NoFailuresCounted(w: Window)
    requires forall i | 0 <= i < |w| :: w[i].1 != Failure
    ensures Count(w, Failure) == 0
  {
    if w != [] {
      NoFailuresCounted(w[1..]);
    }
  }

  lemma {:induction false} PrunedKeepsKinds(w: Window, cutoff: Time)
    requires forall i | 0 <= i < |w| :: w[i].1 != Failure
    ensures forall i | 0 <= i < |Pruned(w, cutoff)| :: Pruned(w, cutoff)[i].1 != Failure
  {
    if w != [] && w[0].0 < cutoff {
      PrunedKeepsKinds(w[1..], cutoff);
    }
  }

  lemma {:induction false} FailureFreeStaysClosed(h: seq<Record>, cfg: Config)
    requires FailureFree(h) && cfg.openFailures >= 1 && cfg.errorThreshold >= 0.0
    ensures var g := Replay(h, cfg);
            g.circuit == Closed && g.streak == 0 && forall i | 0 <= i < |g.window| :: g.window[i].1 != Failure
    decreases |h|
  {
    if h != [] {
      var before, r := h[..|h| - 1], h[|h| - 1];
      FailureFreeStaysClosed(before, cfg);
      PrunedKeepsKinds(Replay(before, cfg).window, r.prunedAt - cfg.window);
      NoFailuresCounted(Pushed(Replay(before, cfg), r, cfg).window);
    }
  }

  /**
    * A failure-free run never leaves Closed, exactly for the configurations that ask for at
    * least one failure and a nonnegative error rate. Configuration loading checks neither.
    */
  lemma FailureFreeNeverOpens(cfg: Config)
    ensures (forall h | FailureFree(h) :: Replay(h, cfg).circuit == Closed)
       <==> cfg.openFailures >= 1 && cfg.errorThreshold >= 0.0
  {
    if cfg.openFailures >= 1 && cfg.errorThreshold >= 0.0 {
      forall h | FailureFree(h)
        ensures Replay(h, cfg).circuit == Closed
      {
        FailureFreeStaysClosed(h, cfg);
      }
    } else {
      var r := Record(Success, 1.0, true, 0, 0, 0);
      assert FailureFree([r]) && [r][..0] == [];
      assert Replay([r], cfg) == Recorded(NEW, r, cfg);
      assert Pushed(NEW, r, cfg).window == [(0, Success)];
      assert Count([(0, Success)], Failure) == 0;
      assert Replay([r], cfg).circuit == Open;
    }
  }

  // ----- throttles

  /**
    * A throttle can open the circuit after all, when pruning drops old successes just before the
    * rate is checked. It does so exactly when the failures that survive pruning, over one more
    * than the outcomes that survive it, exceed the threshold.
    */
  lemma ThrottleOpensExactlyWhen(h: seq<Record>, r: Record, cfg: Config)
    requires cfg.openFailures >= 1 && r.sample == Throttle && Replay(h, cfg).circuit == Closed
    ensures var kept := Pruned(Replay(h, cfg).window, r.prunedAt - cfg.window);
            Recorded(Replay(h, cfg), r, cfg).circuit == Open
            <==> Ratio(Count(kept, Failure), |kept| + 1) > cfg.errorThreshold
  {
    BreakerInvariant(h, cfg);
    CountSnoc(Pruned(Replay(h, cfg).window, r.prunedAt - cfg.window), (r.pushedAt, Throttle), Failure);
  }

  lemma {:induction false} CountSnoc(w: Window, x: (Time, Sample), s: Sample)
    ensures Count(w + [x], s) == Count(w, s) + (if x.1 == s then 1 else 0)
  {
    if w == [] {
      assert w + [x] == [x] && [x][1..] == [];
    } else {
      assert (w + [x])[1..] == w[1..] + [x];
      CountSnoc(w[1..], x, s);
    }
  }

  lemma ClosedStep(g: Inner, r: Record, cfg: Config, kept: Window, failures: nat)
    requires g.circuit == Closed && kept == Pruned(g.window, r.prunedAt - cfg.window)
    requires failures == Count(kept, Failure) + (if r.sample == Failure then 1 else 0)
    requires NextStreak(g.streak, r.sample) < cfg.openFailures
    requires Ratio(failures, |kept| + 1) <= cfg.errorThreshold && !r.isProbe
    ensures Recorded(g, r, cfg)
         == g.(window := kept + [(r.pushedAt, r.sample)], streak := NextStreak(g.streak, r.sample))
  {
    CountSnoc(kept, (r.pushedAt, r.sample), Failure);
    assert Pushed(g, r, cfg).window == kept + [(r.pushedAt, r.sample)];
    StaysClosed(Pushed(g, r, cfg), r.judgedAt, cfg);
  }

  lemma StaysClosed(g: Inner, now: Time, cfg: Config)
    requires g.circuit == Closed && g.streak < cfg.openFailures
    requires Ratio(Count(g.window, Failure), |g.window|) <= cfg.errorThreshold
    ensures Judged(g, now, cfg) == g
  {
  }

  const LOOSE := Config(10, 5, 0.4, 30)
  const OLD_SUCCESS := Record(Success, 1.0, false, 0, 0, 0)
  const NEW_FAILURE := Record(Failure, 1.0, false, 5, 5, 5)
  const LATE_THROTTLE := Record(Throttle, 1.0, false, 12, 12, 12)

  lemma AfterOneSuccess()
    ensures Replay([OLD_SUCCESS], LOOSE) == Inner([(0, Success)], 0, 0.0, Closed, None)
  {
    assert [OLD_SUCCESS][..0] == [];
    ClosedStep(NEW, OLD_SUCCESS, LOOSE, [], 0);
  }

  lemma AfterTwoSuccesses()
    ensures Replay([OLD_SUCCESS, OLD_SUCCESS], LOOSE) == Inner([(0, Success), (0, Success)], 0, 0.0, Closed, None)
  {
    AfterOneSuccess();
    assert [OLD_SUCCESS, OLD_SUCCESS][..1] == [OLD_SUCCESS];
    CountSnoc([], (0, Success), Failure);
    assert [] + [(0, Success)] == [(0, Success)];
    ClosedStep(Replay([OLD_SUCCESS], LOOSE), OLD_SUCCESS, LOOSE, [(0, Success)], 0);
  }

  lemma ClosedBeforeThrottle()
    ensures Replay([OLD_SUCCESS, OLD_SUCCESS, NEW_FAILURE], LOOSE)
         == Inner([(0, Success), (0, Success), (5, Failure)], 1, 0.0, Closed, None)
  {
    AfterTwoSuccesses();
    var two: Window := [(0, Success), (0, Success)];
    assert [OLD_SUCCESS, OLD_SUCCESS, NEW_FAILURE][..2] == [OLD_SUCCESS, OLD_SUCCESS];
    NoFailuresCounted(two);
    ClosedStep(Replay([OLD_SUCCESS, OLD_SUCCESS], LOOSE), NEW_FAILURE, LOOSE, two, 1);
  }

  /** Two successes age out, and a throttle opens a circuit the last failure had left closed. */
  lemma ThrottleCanOpen()
    ensures var h := [OLD_SUCCESS, OLD_SUCCESS, NEW_FAILURE];
            InOrder(h + [LATE_THROTTLE]) && Replay(h, LOOSE).circuit == Closed
            && Recorded(Replay(h, LOOSE), LATE_THROTTLE, LOOSE).circuit == Open
  {
    ClosedBeforeThrottle();
    SuccessesAgeOut();
    var h := [OLD_SUCCESS, OLD_SUCCESS, NEW_FAILURE];
    OneFailure();
    ThrottleOpensExactlyWhen(h, LATE_THROTTLE, LOOSE);
  }

  lemma OneFailure()
    ensures Count([(5, Failure)], Failure) == 1
  {
    CountSnoc([], (5, Failure), Failure);
    assert [] + [(5, Failure)] == [(5, Failure)];
  }

  lemma SuccessesAgeOut()
    ensures Pruned([(0, Success), (0, Success), (5, Failure)], 2) == [(5, Failure)]
  {
    var kept: Window := [(5, Failure)];
    assert Pruned(kept, 2) == kept;
    assert Pruned([(0, Success)] + kept, 2) == kept by {
      assert ([(0, Success)] + kept)[1..] == kept;
    }
    assert Pruned([(0, Success)] + ([(0, Success)] + kept), 2) == kept by {
      assert ([(0, Success)] + ([(0, Success)] + kept))[1..] == [(0, Success)] + kept;
    }
    assert [(0, Success), (0, Success), (5, Failure)] == [(0, Success)] + ([(0, Success)] + kept);
  }

  /** If pruning drops nothing but failures, a throttle never pushes the rate over the threshold. */
  lemma ThrottleHarmless(w: Window, cutoff: Time, threshold: real)
    requires HardErrorRate(w) <= threshold && threshold >= 0.0
    requires forall i | 0 <= i < |w| - |Pruned(w, cutoff)| :: w[i].1 == Failure
    ensures |Pruned(w, cutoff)| <= |w|
    ensures Ratio(Count(Pruned(w, cutoff), Failure), |Pruned(w, cutoff)| + 1) <= threshold
  {
    DroppedFailures(w, cutoff);
    var dropped := |w| - |Pruned(w, cutoff)|;
    RatioDrop(Count(w, Failure), |w|, dropped);
  }

  lemma {:induction false} DroppedFailures(w: Window, cutoff: Time)
    requires forall i | 0 <= i < |w| - |Pruned(w, cutoff)| :: w[i].1 == Failure
    ensures |Pruned(w, cutoff)| <= |w|
    ensures Count(w, Failure) == Count(Pruned(w, cutoff), Failure) + (|w| - |Pruned(w, cutoff)|)
  {
    PrunedShrinks(w, cutoff);
    if w != [] && w[0].0 < cutoff {
      PrunedShrinks(w[1..], cutoff);
      DroppedFailures(w[1..], cutoff);
    }
  }

  lemma {:induction false} PrunedShrinks(w: Window, cutoff: Time)
    ensures |Pruned(w, cutoff)| <= |w|
    ensures w != [] && w[0].0 < cutoff ==> |Pruned(w, cutoff)| < |w|
  {
    if w != [] && w[0].0 < cutoff {
      PrunedShrinks(w[1..], cutoff);
    }
  }

  lemma RatioDrop(f: nat, n: nat, d: nat)
    requires d <= f <= n
    ensures Ratio(f - d, n - d + 1) <= Ratio(f, n)
  {
    if n > 0 {
      var a, b := (f - d) as real, (n - d + 1) as real;
      var p, q := f as real, n as real;
      RatioDropProducts(f, n, d);
      assert a * q <= p * b;
      CrossMultiply(a, b, p, q);
    }
  }

  lemma RatioDropProducts(f: nat, n: nat, d: nat)
    requires d <= f <= n
    ensures (f - d) * n <= f * (n - d + 1)
  {
    assert f * d <= n * d;
    assert (f - d) * n == f * n - n * d;
    assert f * (n - d + 1) == f * n - f * d + f;
  }

  lemma CrossMultiply(a: real, b: real, p: real, q: real)
    requires b > 0.0 && q > 0.0 && a * q <= p * b
    ensures a / b <= p / q
  {
    var x, y := a / b, p / q;
    assert x * b == a && y * q == p;
    assert x * b * q <= y * q * b;
    assert (y - x) * (b * q) >= 0.0;
    SignOfProduct(y - x, b * q);
  }

  lemma SignOfProduct(d: real, k: real)
    requires k > 0.0 && d * k >= 0.0
    ensures d >= 0.0
  {
  }

  // ----- rates and latency

  lemma {:induction false} CountsDisjoint(w: Window)
    ensures Count(w, Failure) + Count(w, Success) <= |w|
  {
    if w != [] {
      CountsDisjoint(w[1..]);
    }
  }

  lemma RatioBetween(a: nat, b: nat, n: nat)
    requires a <= b <= n
    ensures 0.0 <= Ratio(a, n) <= Ratio(b, n) <= 1.0
  {
    if n > 0 {
      CrossMultiply(0.0, 1.0, a as real, n as real);
      CrossMultiply(a as real, n as real, b as real, n as real);
      CrossMultiply(b as real, n as real, 1.0, 1.0);
    }
  }

  /** The rate that trips the breaker never exceeds the one that lowers the score. */
  lemma HardRateAtMostErrorRate(w: Window)
    ensures 0.0 <= HardErrorRate(w) <= ErrorRate(w) <= 1.0
  {
    CountsDisjoint(w);
    RatioBetween(Count(w, Failure), |w| - Count(w, Success), |w|);
  }

  ghost predicate ProbesWithin(h: seq<Record>, lo: real, hi: real) {
    forall i | 0 <= i < |h| && h[i].sample == Success && h[i].isProbe :: lo <= h[i].latency <= hi
  }

  ghost predicate SomeProbe(h: seq<Record>) {
    exists i :: 0 <= i < |h| && h[i].sample == Success && h[i].isProbe
  }

  lemma Average(x: real, y: real, lo: real, hi: real)
    requires lo <= x <= hi && lo <= y <= hi
    ensures lo <= 0.85 * x + 0.15 * y <= hi
  {
  }

  lemma EmaStep(g: Inner, r: Record, cfg: Config)
    ensures Recorded(g, r, cfg).ema == NextEma(g.ema, r)
  {
  }

  lemma SomeProbeSnoc(h: seq<Record>)
    requires h != []
    ensures SomeProbe(h) <==>
      SomeProbe(h[..|h| - 1]) || (h[|h| - 1].sample == Success && h[|h| - 1].isProbe)
  {
    var before := h[..|h| - 1];
    if SomeProbe(before) {
      var i :| 0 <= i < |before| && before[i].sample == Success && before[i].isProbe;
      assert h[i] == before[i];
    }
  }

  /** The latency average stays within the probe samples seen; it is 0 before the first. */
  lemma {:induction false} EmaWithinSamples(h: seq<Record>, cfg: Config, lo: real, hi: real)
    requires ProbesWithin(h, lo, hi)
    ensures if SomeProbe(h) then lo <= Replay(h, cfg).ema <= hi else Replay(h, cfg).ema == 0.0
    decreases |h|
  {
    if h != [] {
      var before, r := h[..|h| - 1], h[|h| - 1];
      EmaWithinSamples(before, cfg, lo, hi);
      EmaStep(Replay(before, cfg), r, cfg);
      SomeProbeSnoc(h);
      if r.sample == Success && r.isProbe && SomeProbe(before) {
        Average(Replay(before, cfg).ema, r.latency, lo, hi);
      }
    }
  }
}
