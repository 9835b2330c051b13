/**
  * `broadcast` and the straggler drain of src/proxy.rs: every usable provider is asked at once,
  * replies are consumed in whatever order they arrive, the first success answers the client,
  * and the rest are drained for their outcomes. The arrival order is an arbitrary permutation.
  */
module Broadcast {
  import opened Common
  import opened Outcomes
  import opened Failover

  /** A launched request: `None` is a task that panicked. */
  datatype Leg = Leg(name: string, depth: HistoryDepth, result: Option<Reply>)

  /** A position of the provider list, and whether its task would panic. */
  datatype Contender = Contender(candidate: Candidate, panics: bool)

  /** The most informative failure so far. */
  datatype Best = Best(status: nat, body: Body, rank: nat)

  /** Outcomes recorded before the answer, outcomes recorded by the drain after it, and the answer. */
  datatype Race = Race(records: seq<(string, Outcome)>, drained: seq<(string, Outcome)>, finishes: seq<Finish>)

  const NO_PROVIDERS := Body("no providers available", Present(Some(-32603)), false)

  // ----- launching

  function LegOf(c: Contender): Leg
    requires c.candidate.config.Some?
  {
    Leg(c.candidate.name, c.candidate.config.value.depth, if c.panics then None else Some(c.candidate.reply))
  }

  function Launched(cs: seq<Contender>, req: Request): seq<Leg> {
    if cs == [] then []
    else (if Unaskable(cs[0].candidate, req) then [] else [LegOf(cs[0])]) + Launched(cs[1..], req)
  }

  method Launch(cs: seq<Contender>, req: Request) returns (legs: seq<Leg>)
    ensures legs == Launched(cs, req)
  {
    legs := [];
    for i := 0 to |cs|
      invariant Launched(cs, req) == legs + Launched(cs[i..], req)
    {
      LaunchNext(cs, i, req, legs);
      var c := cs[i].candidate;
      if c.config.Some? && c.hasClient && !(c.config.value.capped && !c.token && req.rateGate) {
        legs := legs + [LegOf(cs[i])];
      }
    }
  }

  lemma LaunchNext(cs: seq<Contender>, i: nat, req: Request, legs: seq<Leg>)
    requires i < |cs|
    ensures var rest := Launched(cs[i + 1..], req);
            legs + Launched(cs[i..], req)
            == if Unaskable(cs[i].candidate, req) then legs + rest else (legs + [LegOf(cs[i])]) + rest
  {
    assert cs[i..][1..] == cs[i + 1..];
  }

  // ----- ranking failures

  /** A deterministic error beats a miss, which beats a retryable error, which beats a bare HTTP error. */
  function ErrorRank(outcome: Outcome, status: nat, code: Option<int>): (rank: nat)
    ensures rank <= 4
  {
    if outcome == Miss then 3
    else match code
      case Some(c) => if !IsRetryableRpcCode(c) then 4 else 2
      case None => if !Is2xx(status) then 1 else 0
  }

  function RecordOf(leg: Leg, req: Request): seq<(string, Outcome)> {
    match leg.result
    case None => []
    case Some(reply) => [(leg.name, LegOutcome(reply, req.historyLookup, leg.depth))]
  }

  function Records(legs: seq<Leg>, req: Request): seq<(string, Outcome)> {
    if legs == [] then [] else RecordOf(legs[0], req) + Records(legs[1..], req)
  }

  predicate Wins(leg: Leg, req: Request) {
    leg.result.Some? && LegOutcome(leg.result.value, req.historyLookup, leg.depth) == OkOutcome
  }

  /** No JSON-RPC error and no history miss ever wins a race, however fast it arrives. */
  lemma WinMeans(leg: Leg, req: Request)
    ensures Wins(leg, req) <==>
      && Responded(leg) && Is2xx(leg.result.value.status) && !HasRpcError(leg.result.value.body)
      && !(req.historyLookup && IsHistoryMiss(leg.depth, leg.result.value.body))
  {
    if Responded(leg) {
      LegOutcomeMeaning(leg.result.value.status, leg.result.value.body, req.historyLookup, leg.depth);
    }
  }

  predicate Responded(leg: Leg) {
    leg.result.Some? && leg.result.value.Response?
  }

  function RankOf(leg: Leg, req: Request): nat
    requires Responded(leg)
  {
    var reply := leg.result.value;
    ErrorRank(LegOutcome(reply, req.historyLookup, leg.depth), reply.status, RpcCode(reply.body))
  }

  function Better(best: Option<Best>, leg: Leg, req: Request): Option<Best> {
    if Responded(leg) && (best.None? || RankOf(leg, req) > best.value.rank)
    then Some(Best(leg.result.value.status, leg.result.value.body, RankOf(leg, req)))
    else best
  }

  // ----- the race

  function RaceFrom(legs: seq<Leg>, i: nat, req: Request, best: Option<Best>, records: seq<(string, Outcome)>): Race
    requires i <= |legs|
    decreases |legs| - i
  {
    if i == |legs| then
      Race(records, [], [if best.Some? then Finish(best.value.status, best.value.body, None)
                         else Finish(BAD_GATEWAY, ALL_FAILED, None)])
    else
      var records' := records + RecordOf(legs[i], req);
      if Wins(legs[i], req) then
        Race(records', Records(legs[i + 1..], req), [Finish(200, legs[i].result.value.body, Some(legs[i].name))])
      else RaceFrom(legs, i + 1, req, Better(best, legs[i], req), records')
  }

  function RaceOf(cs: seq<Contender>, arrivals: seq<Leg>, req: Request): Race {
    if cs == [] then Race([], [], [Finish(503, NO_PROVIDERS, None)])
    else RaceFrom(arrivals, 0, req, None, [])
  }

  /** The detached task that records the replies still outstanding when the client was answered. */
  method DrainStragglers(legs: seq<Leg>, req: Request) returns (records: seq<(string, Outcome)>)
    ensures records == Records(legs, req)
  {
    records := [];
    for i := 0 to |legs|
      invariant Records(legs, req) == records + Records(legs[i..], req)
    {
      var entry := [];
      match legs[i].result {
        case None =>
        case Some(TransportError) => entry := [(legs[i].name, ProviderError)];
        case Some(Response(status, body)) =>
          entry := [(legs[i].name, FromLeg(status, body, req.historyLookup, legs[i].depth))];
      }
      RecordsNext(legs, i, req, records, entry);
      records := records + entry;
    }
  }

  lemma RecordsNext(legs: seq<Leg>, i: nat, req: Request, done: seq<(string, Outcome)>, entry: seq<(string, Outcome)>)
    requires i < |legs| && entry == RecordOf(legs[i], req)
    ensures done + Records(legs[i..], req) == (done + entry) + Records(legs[i + 1..], req)
  {
    assert legs[i..][1..] == legs[i + 1..];
  }

  method BroadcastRace(cs: seq<Contender>, arrivals: seq<Leg>, req: Request)
    returns (status: nat, body: Body, race: Race)
    requires multiset(arrivals) == multiset(Launched(cs, req))
    ensures race == RaceOf(cs, arrivals, req)
    ensures |race.finishes| == 1
    ensures race.finishes[0].status == status && race.finishes[0].body == body
  {
    if |cs| == 0 {
      return 503, NO_PROVIDERS, Race([], [], [Finish(503, NO_PROVIDERS, None)]);
    }
    var best: Option<Best>, records: seq<(string, Outcome)> := None, [];
    var i := 0;
    while i < |arrivals|
      invariant 0 <= i <= |arrivals|
      invariant RaceOf(cs, arrivals, req) == RaceFrom(arrivals, i, req, best, records)
    {
      var leg := arrivals[i];
      match leg.result {
        case None =>
          assert records + RecordOf(leg, req) == records;
        case Some(TransportError) =>
          records := records + [(leg.name, ProviderError)];
        case Some(Response(code, reply)) =>
          var outcome := FromLeg(code, reply, req.historyLookup, leg.depth);
          records := records + [(leg.name, outcome)];
          if outcome == OkOutcome {
            var drained := DrainStragglers(arrivals[i + 1..], req);
            return 200, reply, Race(records, drained, [Finish(200, reply, Some(leg.name))]);
          }
          var rank := ErrorRank(outcome, code, RpcCode(reply));
          if best.None? || rank > best.value.rank {
            best := Some(Best(code, reply, rank));
          }
      }
      i := i + 1;
    }
    if best.Some? {
      return best.value.status, best.value.body, Race(records, [], [Finish(best.value.status, best.value.body, None)]);
    }
    return BAD_GATEWAY, ALL_FAILED, Race(records, [], [Finish(BAD_GATEWAY, ALL_FAILED, None)]);
  }

  // ----- every reply is recorded once

  lemma {:induction false} RecordsFrom(
      legs: seq<Leg>, i: nat, req: Request, best: Option<Best>, records: seq<(string, Outcome)>)
    requires i <= |legs|
    ensures var r := RaceFrom(legs, i, req, best, records); r.records + r.drained == records + Records(legs[i..], req)
    decreases |legs| - i
  {
    if i < |legs| {
      assert legs[i..][1..] == legs[i + 1..];
      if !Wins(legs[i], req) {
        RecordsFrom(legs, i + 1, req, Better(best, legs[i], req), records + RecordOf(legs[i], req));
      }
    }
  }

  lemma {:induction false} RecordsSplit(a: seq<Leg>, b: seq<Leg>, req: Request)
    ensures Records(a + b, req) == Records(a, req) + Records(b, req)
  {
    if a == [] {
      assert a + b == b;
    } else {
      assert (a + b)[1..] == a[1..] + b;
      RecordsSplit(a[1..], b, req);
    }
  }

  lemma RemoveOne<T>(s: seq<T>, j: nat)
    requires j < |s|
    ensures multiset(s[..j] + s[j + 1..]) == multiset(s) - multiset{s[j]}
  {
    assert s == s[..j] + ([s[j]] + s[j + 1..]);
  }

  lemma RecordsRemoveOne(legs: seq<Leg>, j: nat, req: Request)
    requires j < |legs|
    ensures multiset(Records(legs, req))
         == multiset(RecordOf(legs[j], req)) + multiset(Records(legs[..j] + legs[j + 1..], req))
  {
    assert legs == legs[..j] + legs[j..] && legs[j..][1..] == legs[j + 1..];
    RecordsSplit(legs[..j], legs[j..], req);
    RecordsSplit(legs[..j], legs[j + 1..], req);
  }

  /** Permuting the arrivals permutes the records. */
  lemma {:induction false} RecordsPermute(a: seq<Leg>, b: seq<Leg>, req: Request)
    requires multiset(a) == multiset(b)
    ensures multiset(Records(a, req)) == multiset(Records(b, req))
    decreases |a|
  {
    if a == [] {
      assert |multiset(b)| == |b| && |multiset(a)| == 0;
    } else {
      SameMembers(a, b);
      var j :| 0 <= j < |b| && b[j] == a[0];
      var a', b' := a[..0] + a[1..], b[..j] + b[j + 1..];
      assert multiset(a') == multiset(b') by {
        RemoveOne(a, 0);
        RemoveOne(b, j);
      }
      RecordsPermute(a', b', req);
      calc {
        multiset(Records(a, req));
        { RecordsRemoveOne(a, 0, req); }
        multiset(RecordOf(a[0], req)) + multiset(Records(a', req));
        multiset(RecordOf(b[j], req)) + multiset(Records(b', req));
        { RecordsRemoveOne(b, j, req); }
        multiset(Records(b, req));
      }
    }
  }

  /**
    * In every arrival order, each leg that did not panic is recorded exactly once, across the
    * loop and the drain, with the outcome a sequential forward of the same reply records.
    */
  lemma EveryLegRecordedOnce(cs: seq<Contender>, arrivals: seq<Leg>, req: Request)
    requires cs != [] && multiset(arrivals) == multiset(Launched(cs, req))
    ensures var r := RaceOf(cs, arrivals, req);
            multiset(r.records + r.drained) == multiset(Records(Launched(cs, req), req))
  {
    RecordsFrom(arrivals, 0, req, None, []);
    assert arrivals[0..] == arrivals;
    RecordsPermute(arrivals, Launched(cs, req), req);
  }

  // ----- who answers

  ghost predicate FirstWin(legs: seq<Leg>, req: Request, p: int) {
    0 <= p < |legs| && Wins(legs[p], req) && forall q | 0 <= q < p :: !Wins(legs[q], req)
  }

  ghost predicate AnyWin(legs: seq<Leg>, req: Request) {
    exists p :: 0 <= p < |legs| && Wins(legs[p], req)
  }

  /** The earliest reply of maximal rank among the first `n`. */
  ghost predicate BestFailure(legs: seq<Leg>, n: nat, req: Request, p: int) {
    && 0 <= p < n <= |legs| && Responded(legs[p])
    && (forall q | 0 <= q < n && Responded(legs[q]) :: RankOf(legs[q], req) <= RankOf(legs[p], req))
    && (forall q | 0 <= q < p && Responded(legs[q]) :: RankOf(legs[q], req) < RankOf(legs[p], req))
  }

  ghost predicate BestInv(legs: seq<Leg>, n: nat, req: Request, best: Option<Best>) {
    && n <= |legs|
    && match best
       case None => forall q | 0 <= q < n :: !Responded(legs[q])
       case Some(b) =>
         exists p :: BestFailure(legs, n, req, p)
           && b == Best(legs[p].result.value.status, legs[p].result.value.body, RankOf(legs[p], req))
  }

  lemma BetterKeeps(legs: seq<Leg>, n: nat, req: Request, best: Option<Best>)
    requires n < |legs| && BestInv(legs, n, req, best)
    ensures BestInv(legs, n + 1, req, Better(best, legs[n], req))
  {
    if best.Some? {
      var p :| BestFailure(legs, n, req, p)
        && best.value == Best(legs[p].result.value.status, legs[p].result.value.body, RankOf(legs[p], req));
      if Responded(legs[n]) && RankOf(legs[n], req) > best.value.rank {
        assert BestFailure(legs, n + 1, req, n);
      } else {
        assert BestFailure(legs, n + 1, req, p);
      }
    } else if Responded(legs[n]) {
      assert BestFailure(legs, n + 1, req, n);
    }
  }

  /** `finish` is the failure at position `p`, the earliest of maximal rank. */
  ghost predicate ReturnsFailure(legs: seq<Leg>, req: Request, p: nat, finish: Finish) {
    && BestFailure(legs, |legs|, req, p)
    && finish == Finish(legs[p].result.value.status, legs[p].result.value.body, None)
  }

  ghost predicate AnyResponse(legs: seq<Leg>) {
    exists p :: 0 <= p < |legs| && Responded(legs[p])
  }

  /** What the race returns for a given arrival order. */
  ghost predicate Returns(legs: seq<Leg>, req: Request, finish: Finish) {
    if AnyWin(legs, req) then
      exists p :: FirstWin(legs, req, p) && finish == Finish(200, legs[p].result.value.body, Some(legs[p].name))
    else if AnyResponse(legs) then
      exists p: nat :: ReturnsFailure(legs, req, p, finish)
    else finish == Finish(BAD_GATEWAY, ALL_FAILED, None)
  }

  lemma WinReturns(legs: seq<Leg>, i: nat, req: Request)
    requires i < |legs| && Wins(legs[i], req) && forall q | 0 <= q < i :: !Wins(legs[q], req)
    ensures Returns(legs, req, Finish(200, legs[i].result.value.body, Some(legs[i].name)))
  {
    assert FirstWin(legs, req, i);
  }

  lemma EndReturns(legs: seq<Leg>, req: Request, best: Option<Best>)
    requires BestInv(legs, |legs|, req, best) && !AnyWin(legs, req)
    ensures Returns(legs, req, if best.Some? then Finish(best.value.status, best.value.body, None)
                               else Finish(BAD_GATEWAY, ALL_FAILED, None))
  {
    if best.Some? {
      var p :| BestFailure(legs, |legs|, req, p)
        && best.value == Best(legs[p].result.value.status, legs[p].result.value.body, RankOf(legs[p], req));
      assert ReturnsFailure(legs, req, p, Finish(best.value.status, best.value.body, None));
    }
  }

  lemma {:induction false} ReturnsFrom(
      legs: seq<Leg>, i: nat, req: Request, best: Option<Best>, records: seq<(string, Outcome)>)
    requires i <= |legs| && BestInv(legs, i, req, best)
    requires forall q | 0 <= q < i :: !Wins(legs[q], req)
    ensures |RaceFrom(legs, i, req, best, records).finishes| == 1
    ensures Returns(legs, req, RaceFrom(legs, i, req, best, records).finishes[0])
    decreases |legs| - i
  {
    if i == |legs| {
      EndReturns(legs, req, best);
    } else {
      if Wins(legs[i], req) {
        WinReturns(legs, i, req);
      } else {
        BetterKeeps(legs, i, req, best);
        ReturnsFrom(legs, i + 1, req, Better(best, legs[i], req), records + RecordOf(legs[i], req));
      }
    }
  }

  /**
    * Any success means the earliest success is returned, whatever failed or missed before it;
    * otherwise the earliest reply of maximal rank; otherwise a 502.
    */
  lemma EarliestSuccessOrBestFailure(cs: seq<Contender>, arrivals: seq<Leg>, req: Request)
    requires cs != []
    ensures |RaceOf(cs, arrivals, req).finishes| == 1
    ensures Returns(arrivals, req, RaceOf(cs, arrivals, req).finishes[0])
  {
    ReturnsFrom(arrivals, 0, req, None, []);
  }

  /** Whether a race succeeds does not depend on the arrival order. */
  lemma SuccessIsOrderIndependent(a: seq<Leg>, b: seq<Leg>, req: Request)
    requires multiset(a) == multiset(b)
    ensures AnyWin(a, req) <==> AnyWin(b, req)
  {
    SameMembers(a, b);
    SameMembers(b, a);
  }

  lemma SameMembers(a: seq<Leg>, b: seq<Leg>)
    requires multiset(a) == multiset(b)
    ensures forall p | 0 <= p < |a| :: exists q :: 0 <= q < |b| && b[q] == a[p]
  {
    forall p | 0 <= p < |a|
      ensures exists q :: 0 <= q < |b| && b[q] == a[p]
    {
      assert a[p] in multiset(a);
      assert a[p] in multiset(b);
    }
  }

  lemma BestRanksAgree(a: seq<Leg>, b: seq<Leg>, req: Request, p: nat, q: nat)
    requires multiset(a) == multiset(b)
    requires BestFailure(a, |a|, req, p) && BestFailure(b, |b|, req, q)
    ensures RankOf(a[p], req) == RankOf(b[q], req)
  {
    RankAtMost(a, b, req, p, q);
    RankAtMost(b, a, req, q, p);
  }

  lemma RankAtMost(a: seq<Leg>, b: seq<Leg>, req: Request, p: nat, q: nat)
    requires multiset(a) == multiset(b)
    requires p < |a| && Responded(a[p]) && BestFailure(b, |b|, req, q)
    ensures RankOf(a[p], req) <= RankOf(b[q], req)
  {
    SameMembers(a, b);
    var r :| 0 <= r < |b| && b[r] == a[p];
    assert RankOf(b[r], req) <= RankOf(b[q], req);
  }

  lemma ResponsesAreOrderIndependent(a: seq<Leg>, b: seq<Leg>)
    requires multiset(a) == multiset(b)
    ensures AnyResponse(a) <==> AnyResponse(b)
  {
    SameMembers(a, b);
    SameMembers(b, a);
  }

  lemma FailedRaceReturns(cs: seq<Contender>, legs: seq<Leg>, req: Request) returns (p: nat)
    requires cs != [] && !AnyWin(legs, req) && AnyResponse(legs)
    ensures |RaceOf(cs, legs, req).finishes| == 1
    ensures ReturnsFailure(legs, req, p, RaceOf(cs, legs, req).finishes[0])
  {
    EarliestSuccessOrBestFailure(cs, legs, req);
    var finish := RaceOf(cs, legs, req).finishes[0];
    p :| ReturnsFailure(legs, req, p, finish);
  }

  /**
    * Nor does the rank of the failure returned when nobody succeeds: two races over the same legs
    * return replies of the same rank, or both the synthetic error.
    */
  lemma FailureRankIsOrderIndependent(cs: seq<Contender>, a: seq<Leg>, b: seq<Leg>, req: Request)
    requires cs != [] && multiset(a) == multiset(b) && !AnyWin(a, req)
    ensures |RaceOf(cs, a, req).finishes| == 1 && |RaceOf(cs, b, req).finishes| == 1
    ensures var x, y := RaceOf(cs, a, req).finishes[0], RaceOf(cs, b, req).finishes[0];
            if AnyResponse(a) then
              exists p: nat, q: nat ::
                && ReturnsFailure(a, req, p, x) && ReturnsFailure(b, req, q, y)
                && RankOf(a[p], req) == RankOf(b[q], req)
            else x == y == Finish(BAD_GATEWAY, ALL_FAILED, None)
  {
    SuccessIsOrderIndependent(a, b, req);
    ResponsesAreOrderIndependent(a, b);
    EarliestSuccessOrBestFailure(cs, a, req);
    EarliestSuccessOrBestFailure(cs, b, req);
    if AnyResponse(a) {
      var p := FailedRaceReturns(cs, a, req);
      var q := FailedRaceReturns(cs, b, req);
      BestRanksAgree(a, b, req, p, q);
    }
  }
}
