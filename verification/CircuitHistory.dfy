/**
  * The breaker and the latency average of src/health.rs, from the recorded outcomes alone: what the
  * rates count, exactly which record opens a closed circuit, when it was opened, and what the
  * average averages.
  */
module CircuitHistory {
  import opened Common
  import opened Circuit

  // ----- what the rates count

  /** The positions of the window whose outcome is `s`. */
  ghost function Positions(w: Window, s: Sample): set<int> {
    set i | 0 <= i < |w| && w[i].1 == s
  }

  lemma PositionsSnoc(init: Window, x: (Time, Sample), s: Sample)
    ensures |Positions(init + [x], s)| == |Positions(init, s)| + (if x.1 == s then 1 else 0)
  {
    var w, n := init + [x], |init|;
    assert forall i | 0 <= i < n :: init[i] == w[i];
    var old_, new_ := Positions(init, s), Positions(w, s);
    assert n !in old_;
    if x.1 == s {
      assert new_ == old_ + {n};
    } else {
      assert new_ == old_;
    }
  }

  lemma {:induction false} CountIsPositions(w: Window, s: Sample)
    ensures Count(w, s) == |Positions(w, s)|
    decreases |w|
  {
    if w == [] {
      assert Positions(w, s) == {};
    } else {
      var init, x := w[..|w| - 1], w[|w| - 1];
      CountIsPositions(init, s);
      CountSnoc(init, x, s);
      PositionsSnoc(init, x, s);
      SplitLast(w);
    }
  }

  lemma {:induction false} CountsAddUp(w: Window)
    ensures Count(w, Success) + Count(w, Failure) + Count(w, Throttle) == |w|
  {
    if w != [] {
      CountsAddUp(w[1..]);
    }
  }

  lemma RatioTimes(a: nat, n: nat)
    requires n > 0
    ensures Ratio(a, n) * n as real == a as real
  {
  }

  /** The score's rate is the share of failures and throttles in the window. */
  lemma ErrorRateMeans(w: Window)
    ensures w == [] ==> ErrorRate(w) == 0.0
    ensures w != [] ==>
      ErrorRate(w) * |w| as real == (|Positions(w, Failure)| + |Positions(w, Throttle)|) as real
  {
    CountsAddUp(w);
    CountIsPositions(w, Failure);
    CountIsPositions(w, Throttle);
    if w != [] {
      RatioTimes(|w| - Count(w, Success), |w|);
    }
  }

  /** The breaker's rate is that of failures alone. */
  lemma HardErrorRateMeans(w: Window)
    ensures w == [] ==> HardErrorRate(w) == 0.0
    ensures w != [] ==> HardErrorRate(w) * |w| as real == |Positions(w, Failure)| as real
  {
    CountIsPositions(w, Failure);
    if w != [] {
      RatioTimes(Count(w, Failure), |w|);
    }
  }

  // ----- when a closed circuit opens

  lemma RatioExceeds(a: nat, n: nat, t: real)
    requires n > 0
    ensures Ratio(a, n) > t <==> a as real > t * n as real
  {
    var x, d := Ratio(a, n), n as real;
    RatioTimes(a, n);
    if x > t {
      assert (x - t) * d > 0.0;
    } else {
      assert (t - x) * d >= 0.0;
    }
  }

  /** `h` ends in `n` failures, throttles left out of account. */
  ghost predicate EndsInFailures(h: seq<Record>, n: nat) {
    n <= |Erased(h)| && forall i | |Erased(h)| - n <= i < |Erased(h)| :: Erased(h)[i] == Failure
  }

  /** More failures in the window than the threshold's share of it. */
  ghost predicate TooManyFailures(w: Window, threshold: real) {
    |Positions(w, Failure)| as real > threshold * |w| as real
  }

  lemma StreakReaches(h: seq<Record>, cfg: Config, n: nat)
    ensures Replay(h, cfg).streak >= n <==> EndsInFailures(h, n)
  {
    StreakIsTrailingFailures(h, cfg);
  }

  /**
    * Any record opens a closed circuit exactly if with it the history ends in `circuit_open_failures`
    * failures, throttles left out, or the failures in the window exceed the threshold's share of it.
    */
  lemma OpensExactlyWhen(h: seq<Record>, r: Record, cfg: Config)
    requires Replay(h, cfg).circuit == Closed
    ensures var after := Replay(h + [r], cfg);
            after.circuit == Open <==>
              || EndsInFailures(h + [r], cfg.openFailures)
              || TooManyFailures(after.window, cfg.errorThreshold)
  {
    var more := h + [r];
    assert more[..|h|] == h;
    StreakReaches(more, cfg, cfg.openFailures);
    OpensByRecord(Replay(h, cfg), r, cfg, Replay(more, cfg));
  }

  lemma OpensByRecord(g: Inner, r: Record, cfg: Config, g': Inner)
    requires g.circuit == Closed && g' == Recorded(g, r, cfg)
    ensures g'.circuit == Open <==>
      g'.streak >= cfg.openFailures || TooManyFailures(g'.window, cfg.errorThreshold)
  {
    JudgedFromClosed(g, r, cfg);
    RateExceeds(g'.window, cfg.errorThreshold);
  }

  lemma RateExceeds(w: Window, t: real)
    requires w != []
    ensures HardErrorRate(w) > t <==> TooManyFailures(w, t)
  {
    CountIsPositions(w, Failure);
    RatioExceeds(Count(w, Failure), |w|, t);
  }

  lemma JudgedFromClosed(g: Inner, r: Record, cfg: Config)
    requires g.circuit == Closed
    ensures var g' := Recorded(g, r, cfg);
            && g'.window != []
            && (g'.circuit == Open <==> g'.streak >= cfg.openFailures || HardErrorRate(g'.window) > cfg.errorThreshold)
  {
  }

  // ----- when it was opened

  /** Record `k` opened the circuit, and it has been open since. */
  ghost predicate OpenedBy(h: seq<Record>, cfg: Config, k: int) {
    && 0 <= k < |h| && Replay(h[..k], cfg).circuit != Open
    && (forall j | k < j <= |h| :: Replay(h[..j], cfg).circuit == Open)
  }

  lemma OpenStays(g: Inner, r: Record, cfg: Config)
    requires Recorded(g, r, cfg).circuit == Open
    ensures Recorded(g, r, cfg).openedAt == if g.circuit == Open then g.openedAt else Some(r.judgedAt)
  {
  }

  /** The opening time of an open circuit is the clock of the record that opened it. */
  lemma {:induction false} OpeningTime(h: seq<Record>, cfg: Config) returns (k: nat)
    requires Replay(h, cfg).circuit == Open
    ensures OpenedBy(h, cfg, k) && Replay(h, cfg).openedAt == Some(h[k].judgedAt)
    decreases |h|
  {
    var n := |h| - 1;
    var before := h[..n];
    OpenStays(Replay(before, cfg), h[n], cfg);
    assert h[..|h|] == h;
    if Replay(before, cfg).circuit == Open {
      k := OpeningTime(before, cfg);
      forall j | k < j <= |h|
        ensures Replay(h[..j], cfg).circuit == Open
      {
        assert j <= n ==> h[..j] == before[..j];
      }
      assert h[..k] == before[..k];
    } else {
      k := n;
    }
  }

  // ----- what the average averages

  /** The latencies of the successful probes, in order. */
  ghost function ProbeLatencies(h: seq<Record>): seq<real> {
    if h == [] then []
    else
      var r := h[|h| - 1];
      ProbeLatencies(h[..|h| - 1]) + (if r.isProbe && r.sample == Success then [r.latency] else [])
  }

  /** The first sample as it is, then 15 parts of each new one to 85 of what was; zero counts as no sample yet. */
  ghost function Averaged(xs: seq<real>): real {
    if xs == [] then 0.0
    else
      var before, x := Averaged(xs[..|xs| - 1]), xs[|xs| - 1];
      if before == 0.0 then x else 0.85 * before + 0.15 * x
  }

  /** The average is that of the successful probes; live calls, failures and throttles do not move it. */
  lemma {:induction false} EmaIsAverageOfProbes(h: seq<Record>, cfg: Config)
    ensures Replay(h, cfg).ema == Averaged(ProbeLatencies(h))
    decreases |h|
  {
    if h != [] {
      var before, r := h[..|h| - 1], h[|h| - 1];
      EmaIsAverageOfProbes(before, cfg);
      EmaStep(Replay(before, cfg), r, cfg);
      EmaNext(Replay(before, cfg).ema, r, ProbeLatencies(before));
    }
  }

  lemma EmaNext(ema: real, r: Record, xs: seq<real>)
    requires ema == Averaged(xs)
    ensures NextEma(ema, r) == Averaged(xs + (if r.isProbe && r.sample == Success then [r.latency] else []))
  {
    if r.isProbe && r.sample == Success {
      AveragedSnoc(xs, r.latency);
    } else {
      assert xs + [] == xs;
    }
  }

  lemma AveragedSnoc(xs: seq<real>, x: real)
    ensures Averaged(xs + [x]) == if Averaged(xs) == 0.0 then x else 0.85 * Averaged(xs) + 0.15 * x
  {
    assert (xs + [x])[..|xs|] == xs;
  }
}
