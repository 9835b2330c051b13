/**
  * `sequential` of src/proxy.rs: one forward after another until something answers, with an
  * attempt budget, a rate gate, a remembered history miss and a remembered retryable error.
  * What the world would do at each position of the provider list is an oracle.
  */
module Failover {
  import opened Common
  import opened Outcomes

  datatype Provider = Provider(depth: HistoryDepth, capped: bool)

  /**
    * One position of the list: the configured provider of that name, whether it has a client,
    * whether its token bucket would grant a token, and what forwarding to it would return.
    */
  datatype Candidate = Candidate(
    name: string, config: Option<Provider>, hasClient: bool, token: bool, reply: Reply)

  datatype Request = Request(maxRetries: nat, historyLookup: bool, rateGate: bool)

  datatype Failure = ProviderFault | RetryableHttp | HistoryMissed | BehindTip | RetryableRpc

  /** `finish_analytics`: the status and body returned, and who acknowledged the request. */
  datatype Finish = Finish(status: nat, body: Body, acknowledgedBy: Option<string>)

  datatype Link = Link(from: string, to: string, reason: Failure)

  /** How the run ended. */
  datatype Exit =
    | Answered(at: nat)      // the reply at this position went back to the client
    | MissAt(at: nat)        // the history miss at this position went back to the client
    | RememberedMiss
    | RememberedRetry
    | AllFailed

  /** What a run writes to each sink, in order: forwards, recorded outcomes, failovers, sheds. */
  datatype Log = Log(forwards: seq<nat>, records: seq<(string, Outcome)>, failovers: seq<Link>, shed: seq<string>)

  const EMPTY := Log([], [], [], [])

  datatype Trace = Trace(log: Log, finishes: seq<Finish>, exit: Exit)

  const ALL_FAILED := Body("all providers failed", Present(Some(-32603)), false)
  const BAD_GATEWAY: nat := 502

  // ----- who gets asked

  predicate IsShed(c: Candidate, req: Request) {
    c.config.Some? && c.hasClient && c.config.value.capped && !c.token && req.rateGate
  }

  /** Never forwarded to, whatever has happened before. */
  predicate Unaskable(c: Candidate, req: Request) {
    c.config.None? || !c.hasClient || IsShed(c, req)
  }

  predicate IsFull(c: Candidate) {
    c.config.Some? && c.config.value.depth == Full
  }

  predicate AnyFull(cs: seq<Candidate>) {
    exists i :: 0 <= i < |cs| && IsFull(cs[i])
  }

  function MaxAttempts(cs: seq<Candidate>, req: Request): nat {
    Min(req.maxRetries + 1, |cs|)
  }

  // ----- one forward

  /** What the loop carries from one provider to the next. */
  datatype Loop = Loop(attempt: nat, failed: Option<(string, Failure)>, miss: Option<Body>, retried: Option<Body>)

  const INIT := Loop(0, None, None, None)

  datatype Verdict =
    | Return(finish: Finish, exit: Exit)
    | Retry(reason: Failure, keepMiss: Option<Body>, keepError: Option<Body>)

  /** What the reply of candidate `c` at position `i` leads to; `more` says attempts remain after it. */
  function Judge(c: Candidate, i: nat, req: Request, more: bool, fullBehind: bool): Verdict
    requires c.config.Some?
  {
    match c.reply
    case TransportError => Retry(ProviderFault, None, None)
    case Response(status, body) =>
      if IsRetryableHttp(status) then Retry(RetryableHttp, None, None)
      else if !Is2xx(status) then Return(Finish(status, body, None), Answered(i))
      else if req.historyLookup && IsHistoryMiss(c.config.value.depth, body) then
        if more && fullBehind then Retry(HistoryMissed, Some(body), None)
        else Return(Finish(200, body, None), MissAt(i))
      else if RpcCode(body).Some? && IsRetryableRpcCode(RpcCode(body).value) && more then
        Retry(if IsBehindRpcCode(RpcCode(body).value) then BehindTip else RetryableRpc, None, Some(body))
      else if HasRpcError(body) then Return(Finish(200, body, None), Answered(i))
      else Return(Finish(200, body, Some(c.name)), Answered(i))
  }

  function OrElse<T>(a: Option<T>, b: Option<T>): Option<T> {
    if a.Some? then a else b
  }

  /** After a forward that did not end the run. */
  function Carry(l: Loop, name: string, v: Verdict): Loop
    requires v.Retry?
  {
    Loop(l.attempt + 1, Some((name, v.reason)), OrElse(l.miss, v.keepMiss), OrElse(v.keepError, l.retried))
  }

  predicate Skips(c: Candidate, req: Request, l: Loop) {
    c.config.None? || (l.miss.Some? && c.config.value.depth == Recent) || !c.hasClient || IsShed(c, req)
  }

  function ShedName(c: Candidate, req: Request, l: Loop): seq<string> {
    if IsShed(c, req) && !(l.miss.Some? && c.config.value.depth == Recent) then [c.name] else []
  }

  function LinkTo(c: Candidate, l: Loop): seq<Link> {
    if l.attempt > 0 && l.failed.Some? then [Link(l.failed.value.0, c.name, l.failed.value.1)] else []
  }

  // ----- the whole run

  function Ending(l: Loop): (Finish, Exit) {
    if l.miss.Some? then (Finish(200, l.miss.value, None), RememberedMiss)
    else if l.retried.Some? then (Finish(200, l.retried.value, None), RememberedRetry)
    else (Finish(BAD_GATEWAY, ALL_FAILED, None), AllFailed)
  }

  function Append(a: Log, b: Log): Log {
    Log(a.forwards + b.forwards, a.records + b.records, a.failovers + b.failovers, a.shed + b.shed)
  }

  /** What skipping candidate `c` logs. */
  function SkipLog(c: Candidate, req: Request, l: Loop): Log {
    Log([], [], [], ShedName(c, req, l))
  }

  /** What forwarding to candidate `c` at position `i` logs. */
  function AskLog(c: Candidate, i: nat, req: Request, l: Loop): Log
    requires c.config.Some?
  {
    Log([i], [(c.name, LegOutcome(c.reply, req.historyLookup, c.config.value.depth))], LinkTo(c, l), [])
  }

  function VerdictAt(cs: seq<Candidate>, i: nat, req: Request, max: nat, l: Loop): Verdict
    requires i < |cs| && cs[i].config.Some?
  {
    Judge(cs[i], i, req, l.attempt + 1 < max, AnyFull(cs[i + 1..]))
  }

  /** The run from position `i` on, after `log`. */
  function RunFrom(cs: seq<Candidate>, i: nat, req: Request, max: nat, l: Loop, log: Log): Trace
    requires i <= |cs|
    decreases |cs| - i
  {
    if i == |cs| || l.attempt >= max then Trace(log, [Ending(l).0], Ending(l).1)
    else if Skips(cs[i], req, l) then RunFrom(cs, i + 1, req, max, l, Append(log, SkipLog(cs[i], req, l)))
    else
      var log' := Append(log, AskLog(cs[i], i, req, l));
      match VerdictAt(cs, i, req, max, l)
      case Return(finish, exit) => Trace(log', [finish], exit)
      case Retry(reason, miss, error) =>
        RunFrom(cs, i + 1, req, max, Carry(l, cs[i].name, Retry(reason, miss, error)), log')
  }

  function Run(cs: seq<Candidate>, req: Request): Trace {
    RunFrom(cs, 0, req, MaxAttempts(cs, req), INIT, EMPTY)
  }

  /** One reply, branch by branch: the outcome each branch records and what happens next. */
  method Dispatch(c: Candidate, i: nat, req: Request, more: bool, fullBehind: bool)
    returns (outcome: Outcome, v: Verdict)
    requires c.config.Some?
    ensures outcome == LegOutcome(c.reply, req.historyLookup, c.config.value.depth)
    ensures v == Judge(c, i, req, more, fullBehind)
  {
    match c.reply {
      case TransportError =>
        outcome, v := ProviderError, Retry(ProviderFault, None, None);
      case Response(status, body) =>
        if IsRetryableHttp(status) {
          outcome, v := FromStatus(status), Retry(RetryableHttp, None, None);
        } else if !Is2xx(status) {
          outcome, v := FromStatus(status), Return(Finish(status, body, None), Answered(i));
        } else if req.historyLookup && IsHistoryMiss(c.config.value.depth, body) {
          outcome := Miss;
          if more && fullBehind {
            v := Retry(HistoryMissed, Some(body), None);
          } else {
            v := Return(Finish(200, body, None), MissAt(i));
          }
        } else if RpcCode(body).Some? && IsRetryableRpcCode(RpcCode(body).value) && more {
          CodeKindsDisjoint(RpcCode(body).value);
          outcome := FromRpcError(RpcCode(body));
          v := Retry(if outcome == Behind then BehindTip else RetryableRpc, None, Some(body));
        } else if HasRpcError(body) {
          outcome, v := FromRpcError(RpcCode(body)), Return(Finish(200, body, None), Answered(i));
        } else {
          outcome, v := OkOutcome, Return(Finish(200, body, Some(c.name)), Answered(i));
        }
    }
  }

  method Sequential(cs: seq<Candidate>, req: Request) returns (status: nat, body: Body, trace: Trace)
    ensures trace == Run(cs, req)
    ensures |trace.finishes| == 1
    ensures trace.finishes[0].status == status && trace.finishes[0].body == body
  {
    var max := MaxAttempts(cs, req);
    var l, log, i := INIT, EMPTY, 0;
    while i < |cs| && l.attempt < max
      invariant 0 <= i <= |cs|
      invariant Run(cs, req) == RunFrom(cs, i, req, max, l, log)
    {
      var c := cs[i];
      if Skips(c, req, l) {
        log := Append(log, SkipLog(c, req, l));
      } else {
        var outcome, v := Dispatch(c, i, req, l.attempt + 1 < max, AnyFull(cs[i + 1..]));
        log := Append(log, Log([i], [(c.name, outcome)], LinkTo(c, l), []));
        if v.Return? {
          return v.finish.status, v.finish.body, Trace(log, [v.finish], v.exit);
        }
        l := Carry(l, c.name, v);
      }
      i := i + 1;
    }
    var (finish, exit) := Ending(l);
    return finish.status, finish.body, Trace(log, [finish], exit);
  }
}
