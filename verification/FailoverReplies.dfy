/**
  * What sequential failover (src/proxy.rs) does with each reply, over whole runs and by the literal
  * statuses and JSON-RPC codes: which replies go back to the client at once, which are never
  * passed through, and which are passed over while a better provider can still be asked.
  */
module FailoverReplies {
  import opened Common
  import opened Outcomes
  import opened Failover
  import opened FailoverRuns
  import opened FailoverReference

  // ----- replies, literally

  ghost predicate Is2xxReply(c: Candidate) {
    c.reply.Response? && 200 <= c.reply.status <= 299
  }

  ghost predicate HasCode(c: Candidate, codes: set<int>) {
    c.reply.Response? && CodeIn(c.reply.body, codes)
  }

  const CLIENT_CODES: set<int> := {-32700, -32600, -32601, -32602, -32002, -32003, -32006, -32013, -32015}
  const RETRYABLE_CODES: set<int> := {-32005, -32603, -32014, -32016}

  /** A provider that can be forwarded to: configured, with a client, and not at its cap. */
  ghost predicate Usable(c: Candidate, req: Request) {
    c.config.Some? && c.hasClient && (c.config.value.capped && req.rateGate ==> c.token)
  }

  ghost predicate KeepsFullHistory(c: Candidate) {
    c.config.Some? && c.config.value.depth == Full
  }

  /** A history lookup answered with nothing but that this provider lacks the data. */
  ghost predicate Misses(c: Candidate, req: Request) {
    req.historyLookup && c.config.Some? && Is2xxReply(c) && LacksData(c.reply.body, c.config.value.depth)
  }

  /** Nothing a client could use, while somebody else can be asked. */
  ghost predicate Inconclusive(c: Candidate, req: Request) {
    || c.reply.TransportError?
    || c.reply.status in {429, 500, 501, 502, 503, 504}
    || Misses(c, req)
    || (Is2xxReply(c) && HasCode(c, RETRYABLE_CODES))
  }

  lemma MissMeans(c: Candidate, req: Request)
    ensures MissReply(c, req) <==> Misses(c, req)
  {
  }

  lemma NoAnswerMeans(c: Candidate, req: Request)
    ensures NoAnswer(c, req) <==> Inconclusive(c, req)
  {
    MissMeans(c, req);
  }

  lemma UsableMeans(c: Candidate, req: Request)
    ensures Unaskable(c, req) <==> !Usable(c, req)
  {
  }

  // ----- over whole runs

  /** A reply that is not inconclusive ends the run, and goes back with its own status, or 200 for a 2xx. */
  lemma ConclusiveReplyReturned(cs: seq<Candidate>, req: Request, p: nat)
    requires p in Run(cs, req).log.forwards && p < |cs| && !Inconclusive(cs[p], req)
    ensures Run(cs, req).exit == Answered(p)
    ensures Run(cs, req).log.forwards[|Run(cs, req).log.forwards| - 1] == p
    ensures |Run(cs, req).finishes| == 1
    ensures var finish, reply := Run(cs, req).finishes[0], cs[p].reply;
      && finish.body == reply.body
      && finish.status == (if Is2xxReply(cs[p]) then 200 else reply.status)
      && finish.acknowledgedBy == (if Is2xxReply(cs[p]) && reply.body.error == Absent then Some(cs[p].name) else None)
  {
    EveryRunConcludes(cs, req);
    NoAnswerMeans(cs[p], req);
    var f := Run(cs, req).log.forwards;
    var x :| 0 <= x < |f| && f[x] == p;
    assert x == |f| - 1;
  }

  /** The caller's own mistake comes back at once, from a provider of either depth, acknowledged by nobody. */
  lemma ClientErrorReturned(cs: seq<Candidate>, req: Request, p: nat)
    requires p in Run(cs, req).log.forwards && p < |cs|
    requires Is2xxReply(cs[p]) && HasCode(cs[p], CLIENT_CODES)
    ensures Run(cs, req).exit == Answered(p)
    ensures Run(cs, req).finishes == [Finish(200, cs[p].reply.body, None)]
  {
    ConclusiveReplyReturned(cs, req, p);
  }

  /** A result comes back at once, from a provider of either depth, and is acknowledged by that provider. */
  lemma ResultReturned(cs: seq<Candidate>, req: Request, p: nat)
    requires p in Run(cs, req).log.forwards && p < |cs|
    requires Is2xxReply(cs[p]) && cs[p].reply.body.error == Absent
    requires cs[p].reply.body.hasResult || KeepsFullHistory(cs[p]) || !req.historyLookup
    ensures Run(cs, req).exit == Answered(p)
    ensures Run(cs, req).finishes == [Finish(200, cs[p].reply.body, Some(cs[p].name))]
  {
    ConclusiveReplyReturned(cs, req, p);
  }

  /** Statuses that are neither 2xx nor worth a retry pass through as they are. */
  lemma StatusPassedThrough(cs: seq<Candidate>, req: Request, p: nat)
    requires p in Run(cs, req).log.forwards && p < |cs| && cs[p].reply.Response?
    requires !Is2xxReply(cs[p]) && cs[p].reply.status !in {429, 500, 501, 502, 503, 504}
    ensures Run(cs, req).exit == Answered(p)
    ensures Run(cs, req).finishes == [Finish(cs[p].reply.status, cs[p].reply.body, None)]
  {
    ConclusiveReplyReturned(cs, req, p);
  }

  /** A retryable status never reaches the client: what looks like one is the 502 of the proxy itself. */
  lemma RetryableStatusNeverReturned(cs: seq<Candidate>, req: Request)
    ensures |Run(cs, req).finishes| == 1
    ensures Run(cs, req).finishes[0].status in {429, 500, 501, 502, 503, 504} <==> Run(cs, req).exit == AllFailed
    ensures Run(cs, req).exit == AllFailed ==>
      Run(cs, req).finishes == [Finish(502, Body("all providers failed", Present(Some(-32603)), false), None)]
  {
    EveryRunConcludes(cs, req);
  }

  /**
    * While attempts remain and a usable full-history provider behind a miss has not been asked, the
    * miss is not the response: somebody behind it gave a conclusive one.
    */
  lemma MissFailsOver(cs: seq<Candidate>, req: Request, p: nat, j: nat)
    requires p in Run(cs, req).log.forwards && p < j < |cs| && Misses(cs[p], req)
    requires KeepsFullHistory(cs[j]) && Usable(cs[j], req) && j !in Run(cs, req).log.forwards
    requires |Run(cs, req).log.forwards| < req.maxRetries + 1 && |Run(cs, req).log.forwards| < |cs|
    ensures Run(cs, req).exit.Answered? && Run(cs, req).exit.at > p
    ensures Run(cs, req).exit.at < |cs| && !Misses(cs[Run(cs, req).exit.at], req)
  {
    EveryRunConcludes(cs, req);
    var t := Run(cs, req);
    var f := t.log.forwards;
    MissMeans(cs[p], req);
    UsableMeans(cs[j], req);
    var x :| 0 <= x < |f| && f[x] == p;
    if t.exit.Answered? {
      MissMeans(cs[t.exit.at], req);
    } else {
      assert false;
    }
  }

  /** Only usable providers are asked; and if the list runs out before the attempts do, all that may be. */
  lemma UsableProvidersAsked(cs: seq<Candidate>, req: Request, j: nat)
    requires j < |cs|
    ensures j in Run(cs, req).log.forwards ==> Usable(cs[j], req)
    ensures !EndsEarly(Run(cs, req).exit) && Usable(cs[j], req)
            && |Run(cs, req).log.forwards| < req.maxRetries + 1 && |Run(cs, req).log.forwards| < |cs|
            && (KeepsFullHistory(cs[j]) || forall p | p in Run(cs, req).log.forwards && p < |cs| :: !Misses(cs[p], req))
            ==> j in Run(cs, req).log.forwards
  {
    EveryRunConcludes(cs, req);
    UsableMeans(cs[j], req);
    var f := Run(cs, req).log.forwards;
    forall x | MissedAt(cs, req, f, x)
      ensures Misses(cs[f[x]], req) && f[x] in f
    {
      MissMeans(cs[f[x]], req);
    }
  }

  /** The reason for leaving a provider, by what it replied. */
  ghost predicate Explains(reason: Failure, from: Candidate, req: Request) {
    match reason
    case ProviderFault => from.reply.TransportError?
    case RetryableHttp => from.reply.Response? && from.reply.status in {429, 500, 501, 502, 503, 504}
    case HistoryMissed => Misses(from, req)
    case BehindTip => Is2xxReply(from) && !Misses(from, req) && HasCode(from, {-32014, -32016})
    case RetryableRpc => Is2xxReply(from) && !Misses(from, req) && HasCode(from, {-32005, -32603})
  }

  lemma ReasonExplains(from: Candidate, req: Request)
    requires NoAnswer(from, req)
    ensures Explains(ReasonOf(from, req), from, req)
  {
    MissMeans(from, req);
  }

  /** No reply has two reasons. */
  lemma OneReason(a: Failure, b: Failure, from: Candidate, req: Request)
    requires Explains(a, from, req) && Explains(b, from, req)
    ensures a == b
  {
  }

  /** Every failover leaves a provider whose reply was inconclusive, and gives the one reason that explains it. */
  lemma FailoverReasons(cs: seq<Candidate>, req: Request, x: nat)
    requires x < |Run(cs, req).log.failovers|
    ensures x + 1 < |Run(cs, req).log.forwards| && Run(cs, req).log.forwards[x] < |cs|
    ensures Explains(Run(cs, req).log.failovers[x].reason, cs[Run(cs, req).log.forwards[x]], req)
  {
    EveryRunConcludes(cs, req);
    LinkReason(cs, req, Run(cs, req).log, x);
    NotLastIsInconclusive(cs, req, x);
    ReasonExplains(cs[Run(cs, req).log.forwards[x]], req);
  }

  lemma LinkReason(cs: seq<Candidate>, req: Request, log: Log, x: nat)
    requires Kept(cs, req, log) && x < |log.failovers|
    ensures x + 1 < |log.forwards| && log.forwards[x] < |cs|
    ensures log.failovers[x].reason == ReasonOf(cs[log.forwards[x]], req)
  {
    var to := cs[log.forwards[x + 1]];
    assert log.failovers[x] == Link(cs[log.forwards[x]].name, to.name, ReasonOf(cs[log.forwards[x]], req));
  }

  lemma NotLastIsInconclusive(cs: seq<Candidate>, req: Request, x: nat)
    requires x + 1 < |Run(cs, req).log.forwards|
    ensures Run(cs, req).log.forwards[x] < |cs| && NoAnswer(cs[Run(cs, req).log.forwards[x]], req)
  {
    EveryRunConcludes(cs, req);
    var f := Run(cs, req).log.forwards;
    assert f[..|f| - 1][x] == f[x];
  }

  // ----- who is shed

  /** At its cap, with the gate on: passed over without spending an attempt. */
  ghost predicate AtCap(c: Candidate, req: Request) {
    c.config.Some? && c.hasClient && c.config.value.capped && req.rateGate && !c.token
  }

  /** The providers shed on the reference walk. */
  ghost function Sheds(cs: seq<Candidate>, req: Request, budget: nat, missed: bool): seq<string> {
    if cs == [] || budget == 0 then []
    else if missed && !KeepsFullHistory(cs[0]) then Sheds(cs[1..], req, budget, missed)
    else if AtCap(cs[0], req) then [cs[0].name] + Sheds(cs[1..], req, budget, missed)
    else if !Usable(cs[0], req) then Sheds(cs[1..], req, budget, missed)
    else if !Inconclusive(cs[0], req) then []
    else Sheds(cs[1..], req, budget - 1, missed || Misses(cs[0], req))
  }

  lemma {:induction false} NoFullNoSheds(cs: seq<Candidate>, req: Request, budget: nat)
    requires !AnyFull(cs)
    ensures Sheds(cs, req, budget, true) == []
  {
    if cs != [] && budget > 0 {
      assert !IsFull(cs[0]);
      assert forall i | 0 <= i < |cs[1..]| :: cs[1..][i] == cs[i + 1];
      NoFullNoSheds(cs[1..], req, budget);
    }
  }

  lemma {:induction false} ShedsFrom(cs: seq<Candidate>, i: nat, req: Request, max: nat, l: Loop, log: Log)
    requires i <= |cs| && l.attempt <= max
    ensures RunFrom(cs, i, req, max, l, log).log.shed
         == log.shed + Sheds(cs[i..], req, max - l.attempt, l.miss.Some?)
    decreases |cs| - i
  {
    if i < |cs| && l.attempt < max {
      assert cs[i..][0] == cs[i] && cs[i..][1..] == cs[i + 1..];
      if Skips(cs[i], req, l) {
        SkipSheds(cs, i, req, max, l, log);
      } else {
        AskSheds(cs, i, req, max, l, log);
      }
    }
  }

  lemma {:induction false} SkipSheds(cs: seq<Candidate>, i: nat, req: Request, max: nat, l: Loop, log: Log)
    requires i < |cs| && l.attempt < max && Skips(cs[i], req, l)
    ensures RunFrom(cs, i, req, max, l, log).log.shed
         == log.shed + Sheds(cs[i..], req, max - l.attempt, l.miss.Some?)
    decreases |cs| - i, 0
  {
    var log' := Append(log, SkipLog(cs[i], req, l));
    assert cs[i..][0] == cs[i] && cs[i..][1..] == cs[i + 1..];
    ShedsFrom(cs, i + 1, req, max, l, log');
    RunSkips(cs, i, req, max, l, log, log');
  }

  lemma {:induction false} AskSheds(cs: seq<Candidate>, i: nat, req: Request, max: nat, l: Loop, log: Log)
    requires i < |cs| && l.attempt < max && !Skips(cs[i], req, l)
    ensures RunFrom(cs, i, req, max, l, log).log.shed
         == log.shed + Sheds(cs[i..], req, max - l.attempt, l.miss.Some?)
    decreases |cs| - i, 0
  {
    var log' := Append(log, AskLog(cs[i], i, req, l));
    var v := VerdictAt(cs, i, req, max, l);
    assert cs[i..][0] == cs[i] && cs[i..][1..] == cs[i + 1..];
    assert log'.shed == log.shed;
    RunAsks(cs, i, req, max, l, log, v, log');
    NoAnswerMeans(cs[i], req);
    MissMeans(cs[i], req);
    if v.Retry? {
      RetryMeansNoAnswer(cs, i, req, max, l);
      ShedsFrom(cs, i + 1, req, max, Carry(l, cs[i].name, v), log');
    } else if MissReply(cs[i], req) && l.attempt + 1 < max {
      NoFullNoSheds(cs[i + 1..], req, max - l.attempt - 1);
    }
  }

  /** The providers logged as rate limited are exactly those at their cap that the walk came to, in order. */
  lemma ShedExactly(cs: seq<Candidate>, req: Request)
    ensures Run(cs, req).log.shed
         == Sheds(cs, req, if req.maxRetries + 1 <= |cs| then req.maxRetries + 1 else |cs|, false)
  {
    ShedsFrom(cs, 0, req, MaxAttempts(cs, req), INIT, EMPTY);
    assert cs[0..] == cs;
  }
}
