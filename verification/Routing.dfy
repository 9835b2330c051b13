/**
  * The routing decision of src/router.rs: which providers a request may go to, and in what
  * order, under each of the four strategies. The random roll is an argument.
  */
module Routing {
  import opened Common
  import opened Outcomes

  datatype Strategy = BestScore | WeightedRandom | FailoverOrdered | ParallelRace

  datatype Provider = Provider(name: string, methods: Option<seq<string>>, history: HistoryDepth, weight: nat)

  datatype Snapshot = Snapshot(name: string, score: real, isOpen: bool, rateLimited: bool)

  datatype Decision = Decision(providers: seq<string>, broadcast: bool, degraded: bool)

  /** What a decision depends on besides the snapshots and the roll. */
  datatype Query = Query(
    call: string, strategy: Strategy, providers: seq<Provider>,
    broadcastWrites: bool, writeMethods: seq<string>, fullHistory: bool)

  // ----- who may serve

  function Find(ps: seq<Provider>, name: string): Option<Provider> {
    if ps == [] then None else if ps[0].name == name then Some(ps[0]) else Find(ps[1..], name)
  }

  /** The allowlist permits the method; an empty one permits everything. */
  predicate Supports(p: Provider, m: string) {
    p.methods.Some? && p.methods.value != [] ==> m in p.methods.value
  }

  predicate Permitted(q: Query, name: string) {
    match Find(q.providers, name)
    case None => true
    case Some(p) => Supports(p, q.call) && !(q.fullHistory && p.history == Recent)
  }

  predicate IsWrite(q: Query) {
    q.call in q.writeMethods
  }

  predicate IsAvailable(s: Snapshot) {
    !s.isOpen && !s.rateLimited
  }

  function AllPermitted(q: Query, snaps: seq<Snapshot>): seq<Snapshot> {
    if snaps == [] then []
    else (if Permitted(q, snaps[0].name) then [snaps[0]] else []) + AllPermitted(q, snaps[1..])
  }

  function Available(q: Query, snaps: seq<Snapshot>): seq<Snapshot> {
    if snaps == [] then []
    else (if IsAvailable(snaps[0]) && Permitted(q, snaps[0].name) then [snaps[0]] else []) + Available(q, snaps[1..])
  }

  function Names(snaps: seq<Snapshot>): (names: seq<string>)
    ensures |names| == |snaps| && forall i | 0 <= i < |snaps| :: names[i] == snaps[i].name
  {
    seq(|snaps|, i requires 0 <= i < |snaps| => snaps[i].name)
  }

  // ----- orderings

  /** Puts `x` before the first element that does not beat it. */
  function Insert(x: Snapshot, t: seq<Snapshot>): seq<Snapshot> {
    if t == [] || t[0].score <= x.score then [x] + t else [t[0]] + Insert(x, t[1..])
  }

  /** The stable sort by falling score. */
  function ByScore(s: seq<Snapshot>): seq<Snapshot> {
    if s == [] then [] else Insert(s[0], ByScore(s[1..]))
  }

  function FindSnapshot(s: seq<Snapshot>, name: string): seq<Snapshot> {
    if s == [] then [] else if s[0].name == name then [s[0]] else FindSnapshot(s[1..], name)
  }

  /** The available snapshots of configured providers, in configuration order. */
  function Configured(ps: seq<Provider>, s: seq<Snapshot>): seq<Snapshot> {
    if ps == [] then [] else FindSnapshot(s, ps[0].name) + Configured(ps[1..], s)
  }

  function Unconfigured(ps: seq<Provider>, s: seq<Snapshot>): seq<Snapshot> {
    if s == [] then []
    else (if Find(ps, s[0].name).None? then [s[0]] else []) + Unconfigured(ps, s[1..])
  }

  // ----- the weighted pick

  const TINY := 0.000000001

  function Weight(q: Query, s: Snapshot): (w: real)
    ensures w > 0.0
  {
    var configured := Find(q.providers, s.name);
    var w := (if configured.Some? then configured.value.weight as real else 1.0) * s.score;
    if w > TINY then w else TINY
  }

  function Weights(q: Query, s: seq<Snapshot>): (ws: seq<real>)
    ensures |ws| == |s| && forall i | 0 <= i < |ws| :: ws[i] > 0.0
  {
    seq(|s|, i requires 0 <= i < |s| => Weight(q, s[i]))
  }

  function Sum(ws: seq<real>): real {
    if ws == [] then 0.0 else Sum(ws[..|ws| - 1]) + ws[|ws| - 1]
  }

  /** The weight of the first `n` positions. */
  function Cumulative(ws: seq<real>, n: nat): real
    requires n <= |ws|
  {
    Sum(ws[..n])
  }

  /** `i` is the first position whose cumulative weight reaches `target`. */
  ghost predicate Reaches(ws: seq<real>, target: real, i: nat) {
    && i < |ws|
    && target <= Cumulative(ws, i + 1)
    && (forall n | 1 <= n <= i :: Cumulative(ws, n) < target)
  }

  lemma CumulativeNext(ws: seq<real>, n: nat)
    requires n < |ws|
    ensures Cumulative(ws, n + 1) == Cumulative(ws, n) + ws[n]
  {
    assert ws[..n + 1][..n] == ws[..n];
  }

  method PickWeighted(ws: seq<real>, target: real) returns (primary: nat)
    requires ws != []
    ensures primary < |ws|
    ensures target <= Sum(ws) ==> Reaches(ws, target, primary)
  {
    var cum := 0.0;
    for i := 0 to |ws|
      invariant cum == Cumulative(ws, i)
      invariant forall n | 1 <= n <= i :: Cumulative(ws, n) < target
    {
      CumulativeNext(ws, i);
      cum := cum + ws[i];
      if target <= cum {
        return i;
      }
    }
    assert ws[..|ws|] == ws;
    return 0;
  }

  // ----- the decision

  /** Everything about a decision except which snapshot a weighted pick puts first. */
  ghost predicate Routes(q: Query, snaps: seq<Snapshot>, roll: real, d: Decision) {
    var available := Available(q, snaps);
    if available == [] then
      d == Decision(Names(AllPermitted(q, snaps)), q.broadcastWrites && IsWrite(q), true)
    else if IsWrite(q) && q.broadcastWrites then d == Decision(Names(available), true, false)
    else match q.strategy
      case BestScore => d == Decision(Names(ByScore(available)), false, false)
      case ParallelRace => d == Decision(Names(ByScore(available)), true, false)
      case FailoverOrdered =>
        d == Decision(Names(Configured(q.providers, available) + Unconfigured(q.providers, available)), false, false)
      case WeightedRandom =>
        exists i: nat ::
          && Reaches(Weights(q, available), Target(roll, Weights(q, available)), i)
          && d == Decision(Names(PrimaryFirst(available, i)), false, false)
  }

  /** Where on the line of cumulative weights a roll lands. */
  function Target(roll: real, ws: seq<real>): real {
    roll * Sum(ws)
  }

  /** The primary, then the others by falling score. */
  function PrimaryFirst(available: seq<Snapshot>, i: nat): seq<Snapshot>
    requires i < |available|
  {
    [available[i]] + ByScore(available[..i] + available[i + 1..])
  }

  lemma {:induction false} SumPositive(ws: seq<real>)
    requires forall i | 0 <= i < |ws| :: ws[i] > 0.0
    ensures Sum(ws) >= 0.0
  {
    if ws != [] {
      SumPositive(ws[..|ws| - 1]);
    }
  }

  lemma RollWithinTotal(roll: real, ws: seq<real>)
    requires 0.0 <= roll < 1.0 && Sum(ws) >= 0.0
    ensures Target(roll, ws) <= Sum(ws)
  {
  }

  method ConfigOrder(ps: seq<Provider>, available: seq<Snapshot>) returns (ordered: seq<Snapshot>)
    ensures ordered == Configured(ps, available) + Unconfigured(ps, available)
  {
    ordered := Configured(ps, available);
    for i := 0 to |available|
      invariant ordered + Unconfigured(ps, available[i..]) == Configured(ps, available) + Unconfigured(ps, available)
    {
      assert available[i..][1..] == available[i + 1..];
      if Find(ps, available[i].name).None? {
        ordered := ordered + [available[i]];
      }
    }
  }

  method WeightedOrder(q: Query, available: seq<Snapshot>, roll: real) returns (ordered: seq<Snapshot>, primary: nat)
    requires available != [] && 0.0 <= roll < 1.0
    ensures primary < |available| && ordered == PrimaryFirst(available, primary)
    ensures Reaches(Weights(q, available), Target(roll, Weights(q, available)), primary)
  {
    var ws := Weights(q, available);
    SumPositive(ws);
    RollWithinTotal(roll, ws);
    primary := PickWeighted(ws, Target(roll, ws));
    ordered := [available[primary]] + ByScore(available[..primary] + available[primary + 1..]);
  }

  method Route(q: Query, snaps: seq<Snapshot>, roll: real) returns (d: Decision)
    requires 0.0 <= roll < 1.0
    ensures Routes(q, snaps, roll, d)
  {
    var available := Available(q, snaps);
    if available == [] {
      return Decision(Names(AllPermitted(q, snaps)), q.broadcastWrites && IsWrite(q), true);
    }
    if IsWrite(q) && q.broadcastWrites {
      return Decision(Names(available), true, false);
    }
    match q.strategy {
      case BestScore => return Decision(Names(ByScore(available)), false, false);
      case ParallelRace => return Decision(Names(ByScore(available)), true, false);
      case FailoverOrdered =>
        var ordered := ConfigOrder(q.providers, available);
        return Decision(Names(ordered), false, false);
      case WeightedRandom =>
        var ordered, primary := WeightedOrder(q, available, roll);
        return Decision(Names(ordered), false, false);
    }
  }
}
