/**
  * What a broadcast (src/proxy.rs) returns when nobody succeeds, by the literal statuses and
  * JSON-RPC codes of the replies: the most useful kind of failure present, and the earliest of it.
  */
module BroadcastReplies {
  import opened Common
  import opened Outcomes
  import opened Failover
  import opened Broadcast

  /** The kinds of failed replies, the most useful to a client first. */
  datatype Kind = Deterministic | NotHere | Transient | BareStatus | Other

  ghost predicate IsMiss(leg: Leg, req: Request)
    requires Responded(leg)
  {
    var reply := leg.result.value;
    && 200 <= reply.status <= 299
    && ((req.historyLookup && LacksData(reply.body, leg.depth))
        || CodeIn(reply.body, {-32001, -32004, -32011, -32019, -32020}))
  }

  ghost predicate CarriesCode(leg: Leg)
    requires Responded(leg)
  {
    leg.result.value.body.error.Present? && leg.result.value.body.error.code.Some?
  }

  ghost predicate IsKind(leg: Leg, req: Request, kind: Kind) {
    && Responded(leg)
    && var body := leg.result.value.body;
    && match kind
       case Deterministic =>
         !IsMiss(leg, req) && CarriesCode(leg) && !CodeIn(body, {-32005, -32603, -32014, -32016})
       case NotHere => IsMiss(leg, req)
       case Transient => !IsMiss(leg, req) && CodeIn(body, {-32005, -32603, -32014, -32016})
       case BareStatus => !CarriesCode(leg) && !(200 <= leg.result.value.status <= 299)
       case Other => !IsMiss(leg, req) && !CarriesCode(leg) && 200 <= leg.result.value.status <= 299
  }

  ghost function Place(kind: Kind): nat {
    match kind
    case Deterministic => 4
    case NotHere => 3
    case Transient => 2
    case BareStatus => 1
    case Other => 0
  }

  /** Replies are ranked by their kind. */
  lemma RankOfKind(leg: Leg, req: Request, kind: Kind)
    requires IsKind(leg, req, kind)
    ensures RankOf(leg, req) == Place(kind)
  {
    var reply := leg.result.value;
    LegOutcomeMeaning(reply.status, reply.body, req.historyLookup, leg.depth);
  }

  lemma KindExists(leg: Leg, req: Request) returns (kind: Kind)
    requires Responded(leg)
    ensures IsKind(leg, req, kind)
  {
    var reply := leg.result.value;
    kind :=
      if IsMiss(leg, req) then NotHere
      else if CodeIn(reply.body, {-32005, -32603, -32014, -32016}) then Transient
      else if CarriesCode(leg) then Deterministic
      else if 200 <= reply.status <= 299 then Other
      else BareStatus;
  }

  ghost predicate SomeOf(legs: seq<Leg>, req: Request, kind: Kind) {
    exists q :: 0 <= q < |legs| && IsKind(legs[q], req, kind)
  }

  /** The kind to return: the first of the list above that some reply is of. */
  ghost predicate IsBestKind(legs: seq<Leg>, req: Request, kind: Kind) {
    && SomeOf(legs, req, kind)
    && (kind.NotHere? ==> !SomeOf(legs, req, Deterministic))
    && (kind.Transient? ==> !SomeOf(legs, req, Deterministic) && !SomeOf(legs, req, NotHere))
    && (kind.BareStatus? ==>
          !SomeOf(legs, req, Deterministic) && !SomeOf(legs, req, NotHere) && !SomeOf(legs, req, Transient))
    && (kind.Other? ==>
          && !SomeOf(legs, req, Deterministic) && !SomeOf(legs, req, NotHere)
          && !SomeOf(legs, req, Transient) && !SomeOf(legs, req, BareStatus))
  }

  /** Position `p` is the earliest reply of its kind, and its kind is the best. */
  ghost predicate Preferred(legs: seq<Leg>, req: Request, p: nat, kind: Kind) {
    && p < |legs| && IsKind(legs[p], req, kind) && IsBestKind(legs, req, kind)
    && (forall q | 0 <= q < p :: !IsKind(legs[q], req, kind))
  }

  lemma BestIsPreferred(legs: seq<Leg>, req: Request, p: nat, kind: Kind)
    requires BestFailure(legs, |legs|, req, p) && IsKind(legs[p], req, kind)
    ensures Preferred(legs, req, p, kind)
  {
    RankOfKind(legs[p], req, kind);
    forall q, k | 0 <= q < |legs| && IsKind(legs[q], req, k)
      ensures RankOf(legs[q], req) == Place(k)
    {
      RankOfKind(legs[q], req, k);
    }
  }

  /**
    * When nobody succeeds but somebody replied: a deterministic JSON-RPC error if there is one, else a
    * history miss, else a transient JSON-RPC error, else a bare HTTP error, else whatever came; of
    * those the earliest, with its own status.
    */
  lemma FailurePreference(cs: seq<Contender>, legs: seq<Leg>, req: Request) returns (p: nat, kind: Kind)
    requires cs != [] && !AnyWin(legs, req) && AnyResponse(legs)
    ensures Preferred(legs, req, p, kind)
    ensures RaceOf(cs, legs, req).finishes
         == [Finish(legs[p].result.value.status, legs[p].result.value.body, None)]
  {
    p := FailedRaceReturns(cs, legs, req);
    kind := KindExists(legs[p], req);
    BestIsPreferred(legs, req, p, kind);
  }

  /** Nobody replied at all, or nobody was there to ask: the proxy's own errors. */
  lemma NobodyReplied(cs: seq<Contender>, legs: seq<Leg>, req: Request)
    requires !AnyResponse(legs)
    ensures RaceOf(cs, legs, req).finishes
         == if cs == [] then [Finish(503, Body("no providers available", Present(Some(-32603)), false), None)]
            else [Finish(502, Body("all providers failed", Present(Some(-32603)), false), None)]
    ensures cs == [] ==> RaceOf(cs, legs, req).records == [] && RaceOf(cs, legs, req).drained == []
  {
    if cs != [] {
      EarliestSuccessOrBestFailure(cs, legs, req);
    }
  }

  // ----- who takes part

  /** The name and outcome of everyone who can be asked and does not panic, in list order. */
  ghost function Expected(cs: seq<Contender>, req: Request): seq<(string, Outcome)> {
    if cs == [] then []
    else
      var c := cs[0].candidate;
      (if c.config.None? || !c.hasClient || (c.config.value.capped && req.rateGate && !c.token) || cs[0].panics then []
       else [(c.name, LegOutcome(c.reply, req.historyLookup, c.config.value.depth))])
      + Expected(cs[1..], req)
  }

  lemma {:induction false} RecordsOfLaunched(cs: seq<Contender>, req: Request)
    ensures Records(Launched(cs, req), req) == Expected(cs, req)
  {
    if cs != [] {
      RecordsOfLaunched(cs[1..], req);
      var rest := Launched(cs[1..], req);
      if Unaskable(cs[0].candidate, req) {
        assert Launched(cs, req) == rest;
      } else {
        var leg := LegOf(cs[0]);
        RecordsSplit([leg], rest, req);
        assert [leg][1..] == [] && Records([leg], req) == RecordOf(leg, req) + [];
      }
    }
  }

  /** In every arrival order exactly those are recorded, each once. */
  lemma ExactlyTheUsableRecorded(cs: seq<Contender>, arrivals: seq<Leg>, req: Request)
    requires cs != [] && multiset(arrivals) == multiset(Launched(cs, req))
    ensures var r := RaceOf(cs, arrivals, req);
            multiset(r.records + r.drained) == multiset(Expected(cs, req))
  {
    EveryLegRecordedOnce(cs, arrivals, req);
    RecordsOfLaunched(cs, req);
  }

  // ----- before and after the answer

  /** The first winner at or after `i`, or the end. */
  ghost function Decided(legs: seq<Leg>, i: nat, req: Request): (n: nat)
    requires i <= |legs|
    ensures i <= n <= |legs|
    decreases |legs| - i
  {
    if i == |legs| then i else if Wins(legs[i], req) then i + 1 else Decided(legs, i + 1, req)
  }

  lemma RecordsPrefix(legs: seq<Leg>, i: nat, req: Request)
    requires i < |legs|
    ensures Records(legs[..i + 1], req) == Records(legs[..i], req) + RecordOf(legs[i], req)
  {
    var leg := legs[i];
    assert legs[..i + 1] == legs[..i] + [leg];
    RecordsSplit(legs[..i], [leg], req);
    assert [leg][1..] == [] && Records([leg], req) == RecordOf(leg, req) + [];
  }

  lemma {:induction false} RecordsAround(
      legs: seq<Leg>, i: nat, req: Request, best: Option<Best>, records: seq<(string, Outcome)>)
    requires i <= |legs| && records == Records(legs[..i], req)
    ensures var r, n := RaceFrom(legs, i, req, best, records), Decided(legs, i, req);
            r.records == Records(legs[..n], req) && r.drained == Records(legs[n..], req)
    decreases |legs| - i
  {
    if i == |legs| {
      assert legs[i..] == [];
    } else {
      RecordsPrefix(legs, i, req);
      if !Wins(legs[i], req) {
        RecordsAround(legs, i + 1, req, Better(best, legs[i], req), records + RecordOf(legs[i], req));
      }
    }
  }

  /** The loop records what arrives up to the answer, the drain what arrives after it. */
  lemma RecordedAroundTheAnswer(cs: seq<Contender>, legs: seq<Leg>, req: Request)
    requires cs != []
    ensures var r, n := RaceOf(cs, legs, req), Decided(legs, 0, req);
            r.records == Records(legs[..n], req) && r.drained == Records(legs[n..], req)
  {
    assert legs[..0] == [];
    RecordsAround(legs, 0, req, None, []);
  }
}
