/**
  * The health score of src/health.rs: a weighted average of latency, error and freshness terms.
  * The weights are nonnegative and the drift threshold positive, which configuration loading
  * takes on trust.
  */
module Score {
  import opened Common
  import opened Circuit

  datatype Weights = Weights(latency: real, error: real, slot: real, success: real, driftThreshold: nat)

  ghost predicate Sane(w: Weights) {
    w.latency >= 0.0 && w.error >= 0.0 && w.slot >= 0.0 && w.success >= 0.0 && w.driftThreshold >= 1
  }

  /** 1 at zero, one half at `k`, falling towards 0. */
  function Decay(k: real, x: real): real
    requires k + x != 0.0
  {
    k / (k + x)
  }

  function LatencyScore(ema: real): real
    requires ema >= 0.0
  {
    if ema == 0.0 then 0.5 else Decay(200.0, ema)
  }

  function SlotScore(drift: Option<nat>, threshold: nat): real
    requires threshold >= 1
  {
    match drift
    case None => 0.5
    case Some(d) => Decay(threshold as real, d as real)
  }

  function Share(weight: real, term: real): real {
    weight * term
  }

  function Blend(w: Weights, latency: real, error: real, slot: real): real {
    Total(Share(w.latency, latency), Share(w.error, error), Share(w.slot, slot), Share(w.success, error))
  }

  function Total(a: real, b: real, c: real, d: real): real {
    a + b + c + d
  }

  function HealthScore(circuit: CircuitState, ema: real, errorRate: real, drift: Option<nat>, w: Weights): real
    requires ema >= 0.0 && w.driftThreshold >= 1
  {
    if circuit == Open then 0.0
    else
      var total := Total(w.latency, w.error, w.slot, w.success);
      if total <= 0.0 then 0.5
      else Blend(w, LatencyScore(ema), 1.0 - errorRate, SlotScore(drift, w.driftThreshold)) / total
  }

  // ----- bounds and monotonicity

  lemma DecayFalls(k: real, x: real, y: real)
    requires k > 0.0 && 0.0 <= x <= y
    ensures 0.0 <= Decay(k, y) <= Decay(k, x) <= 1.0
  {
    CrossMultiply(0.0, 1.0, k, k + y);
    assert k * (k + x) <= k * (k + y);
    CrossMultiply(k, k + y, k, k + x);
    CrossMultiply(k, k + x, 1.0, 1.0);
  }

  lemma LatencyScoreFalls(x: real, y: real)
    requires 0.0 <= x <= y && (x == 0.0 <==> y == 0.0)
    ensures 0.0 <= LatencyScore(y) <= LatencyScore(x) <= 1.0
  {
    DecayFalls(200.0, x, y);
  }

  lemma SlotScoreFalls(x: Option<nat>, y: Option<nat>, threshold: nat)
    requires threshold >= 1 && x.Some? == y.Some? && (x.Some? ==> x.value <= y.value)
    ensures 0.0 <= SlotScore(y, threshold) <= SlotScore(x, threshold) <= 1.0
  {
    if x.Some? {
      DecayFalls(threshold as real, x.value as real, y.value as real);
    }
  }

  lemma ShareRises(weight: real, x: real, y: real)
    requires weight >= 0.0 && x <= y
    ensures Share(weight, x) <= Share(weight, y)
  {
    var d := y - x;
    ShareOfSum(weight, x, d);
    assert weight * d >= 0.0;
  }

  lemma ShareOfSum(weight: real, x: real, d: real)
    ensures Share(weight, x + d) == Share(weight, x) + weight * d
  {
  }

  lemma TotalRises(a: real, b: real, c: real, d: real, a': real, b': real, c': real, d': real)
    requires a <= a' && b <= b' && c <= c' && d <= d'
    ensures Total(a, b, c, d) <= Total(a', b', c', d')
  {
  }

  lemma BlendRises(w: Weights, l: real, e: real, s: real, l': real, e': real, s': real)
    requires Sane(w) && l <= l' && e <= e' && s <= s'
    ensures Blend(w, l, e, s) <= Blend(w, l', e', s')
  {
    ShareRises(w.latency, l, l');
    ShareRises(w.error, e, e');
    ShareRises(w.slot, s, s');
    ShareRises(w.success, e, e');
    TotalRises(Share(w.latency, l), Share(w.error, e), Share(w.slot, s), Share(w.success, e),
               Share(w.latency, l'), Share(w.error, e'), Share(w.slot, s'), Share(w.success, e'));
  }

  lemma DivideKeepsOrder(a: real, b: real, t: real)
    requires t > 0.0 && a <= b
    ensures a / t <= b / t
  {
  }

  lemma BlendOfConstant(w: Weights)
    ensures Blend(w, 0.0, 0.0, 0.0) == 0.0
    ensures Blend(w, 1.0, 1.0, 1.0) == Total(w.latency, w.error, w.slot, w.success)
  {
  }

  /** The score stays between 0 and 1. */
  lemma ScoreInUnitInterval(circuit: CircuitState, ema: real, errorRate: real, drift: Option<nat>, w: Weights)
    requires Sane(w) && ema >= 0.0 && 0.0 <= errorRate <= 1.0
    ensures 0.0 <= HealthScore(circuit, ema, errorRate, drift, w) <= 1.0
  {
    var total := Total(w.latency, w.error, w.slot, w.success);
    var l, e, s := LatencyScore(ema), 1.0 - errorRate, SlotScore(drift, w.driftThreshold);
    LatencyScoreFalls(ema, ema);
    SlotScoreFalls(drift, drift, w.driftThreshold);
    BlendRises(w, 0.0, 0.0, 0.0, l, e, s);
    BlendRises(w, l, e, s, 1.0, 1.0, 1.0);
    if circuit != Open && total > 0.0 {
      BlendOfConstant(w);
      DivideKeepsOrder(0.0, Blend(w, l, e, s), total);
      DivideKeepsOrder(Blend(w, l, e, s), total, total);
    }
  }

  /** It never rises as drift, a positive latency average or the fraction of bad outcomes grows. */
  lemma ScoreNeverRises(
      circuit: CircuitState, ema: real, ema': real, rate: real, rate': real,
      drift: Option<nat>, drift': Option<nat>, w: Weights)
    requires Sane(w)
    requires 0.0 <= ema <= ema' && (ema == 0.0 <==> ema' == 0.0)
    requires rate <= rate'
    requires drift.Some? == drift'.Some? && (drift.Some? ==> drift.value <= drift'.value)
    ensures HealthScore(circuit, ema', rate', drift', w) <= HealthScore(circuit, ema, rate, drift, w)
  {
    var total := Total(w.latency, w.error, w.slot, w.success);
    if circuit != Open && total > 0.0 {
      var t := w.driftThreshold;
      LatencyScoreFalls(ema, ema');
      SlotScoreFalls(drift, drift', t);
      BlendRises(w, LatencyScore(ema'), 1.0 - rate', SlotScore(drift', t),
                 LatencyScore(ema), 1.0 - rate, SlotScore(drift, t));
      DivideKeepsOrder(Blend(w, LatencyScore(ema'), 1.0 - rate', SlotScore(drift', t)),
                       Blend(w, LatencyScore(ema), 1.0 - rate, SlotScore(drift, t)), total);
    }
  }

  /** After any recorded history with nonnegative latencies, every score is in range. */
  lemma EveryScoreInRange(h: seq<Record>, cfg: Config, drift: Option<nat>, w: Weights)
    requires Sane(w)
    requires forall i | 0 <= i < |h| :: h[i].latency >= 0.0
    ensures var g := Replay(h, cfg);
            g.ema >= 0.0 && 0.0 <= HealthScore(g.circuit, g.ema, ErrorRate(g.window), drift, w) <= 1.0
  {
    var g := Replay(h, cfg);
    var hi := Ceiling(h);
    EmaWithinSamples(h, cfg, 0.0, hi);
    HardRateAtMostErrorRate(g.window);
    ScoreInUnitInterval(g.circuit, g.ema, ErrorRate(g.window), drift, w);
  }

  /** A bound on every latency recorded. */
  ghost function Ceiling(h: seq<Record>): (hi: real)
    ensures forall i | 0 <= i < |h| :: h[i].latency <= hi
  {
    if h == [] then 0.0
    else
      var rest := Ceiling(h[1..]);
      assert forall i | 1 <= i < |h| :: h[i] == h[1..][i - 1];
      if h[0].latency > rest then h[0].latency else rest
  }

  // ----- what the score is made of

  /** The share of each term is its own weight's. */
  lemma ScoreIsWeightedMean(circuit: CircuitState, ema: real, rate: real, drift: Option<nat>, w: Weights)
    requires Sane(w) && ema >= 0.0 && circuit != Open
    requires w.latency + w.error + w.slot + w.success > 0.0
    ensures var score := HealthScore(circuit, ema, rate, drift, w);
      var fast := if ema == 0.0 then 0.5 else 200.0 / (200.0 + ema);
      var recent := if drift.None? then 0.5 else w.driftThreshold as real / (w.driftThreshold + drift.value) as real;
      score * (w.latency + w.error + w.slot + w.success)
      == w.latency * fast + (w.error + w.success) * (1.0 - rate) + w.slot * recent
  {
    var total := Total(w.latency, w.error, w.slot, w.success);
    var blend := Blend(w, LatencyScore(ema), 1.0 - rate, SlotScore(drift, w.driftThreshold));
    QuotientTimes(blend, total);
    ErrorShares(w, 1.0 - rate);
  }

  lemma QuotientTimes(a: real, b: real)
    requires b > 0.0
    ensures a / b * b == a
  {
  }

  lemma ErrorShares(w: Weights, e: real)
    ensures Share(w.error, e) + Share(w.success, e) == (w.error + w.success) * e
  {
  }

  /** An open circuit scores nothing; without any weight, or any data, a provider is in the middle. */
  lemma ScoreAtTheEnds(circuit: CircuitState, ema: real, rate: real, drift: Option<nat>, w: Weights)
    requires ema >= 0.0 && w.driftThreshold >= 1
    ensures HealthScore(Open, ema, rate, drift, w) == 0.0
    ensures circuit != Open && w.latency + w.error + w.slot + w.success <= 0.0 ==>
      HealthScore(circuit, ema, rate, drift, w) == 0.5
    ensures LatencyScore(0.0) == 0.5 && LatencyScore(200.0) == 0.5 && SlotScore(None, w.driftThreshold) == 0.5
    ensures SlotScore(Some(0), w.driftThreshold) == 1.0 && SlotScore(Some(w.driftThreshold), w.driftThreshold) == 0.5
  {
    HalfOfDouble(w.driftThreshold as real);
  }

  lemma HalfOfDouble(x: real)
    requires x > 0.0
    ensures x / (x + x) == 0.5 && x / (x + 0.0) == 1.0
  {
  }
}
