/**
  * How one upstream reply is classified (src/router.rs status and code classifiers,
  * src/proxy.rs `Outcome`). A body is its text together with what the proxy parses out of it:
  * the JSON-RPC error member and whether there is a non-null result.
  */
module Outcomes {
  import opened Common

  /** What an HTTP client can return as a status. */
  type HttpStatus = s: nat | 100 <= s < 1000 witness 200

  datatype ErrorMember = Absent | Present(code: Option<int>)

  datatype Body = Body(text: string, error: ErrorMember, hasResult: bool)

  datatype Reply = Response(status: HttpStatus, body: Body) | TransportError

  datatype HistoryDepth = Recent | Full

  datatype Outcome = OkOutcome | ProviderError | RateLimited | ClientError | Miss | Behind | Unsupported

  // ----- classifiers

  predicate Is2xx(status: nat) {
    200 <= status < 300
  }

  predicate IsRetryableHttp(status: nat) {
    status in {429, 500, 501, 502, 503, 504}
  }

  predicate IsClientError(status: nat) {
    status in {400, 404, 405, 413, 415, 422}
  }

  predicate IsBehindRpcCode(code: int) {
    code in {-32014, -32016}
  }

  predicate IsRetryableRpcCode(code: int) {
    code in {-32005, -32603} || IsBehindRpcCode(code)
  }

  predicate IsClientRpcCode(code: int) {
    code in {-32700, -32600, -32601, -32602, -32002, -32003, -32006, -32013, -32015}
  }

  predicate IsHistoryGapCode(code: int) {
    code in {-32001, -32004, -32011, -32019, -32020}
  }

  function RpcCode(body: Body): Option<int> {
    match body.error
    case Absent => None
    case Present(code) => code
  }

  predicate HasRpcError(body: Body) {
    body.error.Present?
  }

  /** A 2xx answer to a history lookup that only says this provider lacks the data. */
  predicate IsHistoryMiss(depth: HistoryDepth, body: Body) {
    match (depth, RpcCode(body))
    case (Full, Some(code)) => IsHistoryGapCode(code)
    case (Full, None) => false
    case (Recent, Some(code)) => !IsClientRpcCode(code) && !IsBehindRpcCode(code)
    case (Recent, None) => !body.hasResult
  }

  function FromStatus(status: nat): Outcome {
    if Is2xx(status) then OkOutcome
    else if status == 429 then RateLimited
    else if status == 501 then Unsupported
    else if IsClientError(status) then ClientError
    else ProviderError
  }

  function FromRpcError(code: Option<int>): Outcome {
    match code
    case None => ProviderError
    case Some(c) =>
      if IsClientRpcCode(c) then ClientError
      else if IsBehindRpcCode(c) then Behind
      else if IsHistoryGapCode(c) then Miss
      else ProviderError
  }

  /** The classification of a broadcast leg, from status, body and provider depth. */
  function FromLeg(status: nat, body: Body, historyLookup: bool, depth: HistoryDepth): Outcome {
    if !Is2xx(status) then FromStatus(status)
    else if historyLookup && IsHistoryMiss(depth, body) then Miss
    else if HasRpcError(body) then FromRpcError(RpcCode(body))
    else OkOutcome
  }

  function LegOutcome(reply: Reply, historyLookup: bool, depth: HistoryDepth): Outcome {
    match reply
    case Response(status, body) => FromLeg(status, body, historyLookup, depth)
    case TransportError => ProviderError
  }

  /** How a recorded outcome moves provider health. */
  datatype HealthEffect = Succeeded | Failed | Throttled | Neutral

  function EffectOf(outcome: Outcome): HealthEffect {
    match outcome
    case OkOutcome => Succeeded
    case ProviderError => Failed
    case RateLimited => Throttled
    case _ => Neutral
  }

  /** The four kinds of JSON-RPC code never overlap, so no classification depends on their order. */
  lemma CodeKindsDisjoint(code: int)
    ensures !(IsClientRpcCode(code) && IsRetryableRpcCode(code))
    ensures !(IsClientRpcCode(code) && IsHistoryGapCode(code))
    ensures !(IsRetryableRpcCode(code) && IsHistoryGapCode(code))
  {
  }

  /** The literal meaning of a history miss: what only says that this provider lacks the data. */
  ghost predicate LacksData(body: Body, depth: HistoryDepth) {
    if depth == Full then CodeIn(body, {-32001, -32004, -32011, -32019, -32020})
    else if body.error.Present? && body.error.code.Some? then
      !CodeIn(body, {-32700, -32600, -32601, -32602, -32002, -32003, -32006, -32013, -32015, -32014, -32016})
    else !body.hasResult
  }

  ghost predicate CodeIn(body: Body, codes: set<int>) {
    body.error.Present? && body.error.code.Some? && body.error.code.value in codes
  }

  /** Every outcome by the literal statuses and codes that lead to it. */
  lemma LegOutcomeMeaning(status: HttpStatus, body: Body, historyLookup: bool, depth: HistoryDepth)
    ensures var o := FromLeg(status, body, historyLookup, depth);
      var fine := 200 <= status <= 299;
      var miss := fine && historyLookup && LacksData(body, depth);
      var faulty := fine && !miss && body.error.Present?;
      && (o == OkOutcome <==> fine && !miss && body.error == Absent)
      && (o == RateLimited <==> status == 429)
      && (o == Unsupported <==> status == 501)
      && (o == Miss <==> miss || (faulty && CodeIn(body, {-32001, -32004, -32011, -32019, -32020})))
      && (o == Behind <==> faulty && CodeIn(body, {-32014, -32016}))
      && (o == ClientError <==>
            || status in {400, 404, 405, 413, 415, 422}
            || (faulty && CodeIn(body, {-32700, -32600, -32601, -32602, -32002, -32003, -32006, -32013, -32015})))
  {
  }

  /** Success and failure feed the breaker, a 429 only the score; every other outcome leaves health alone. */
  lemma HealthEffects(outcome: Outcome)
    ensures EffectOf(outcome) == Succeeded <==> outcome == OkOutcome
    ensures EffectOf(outcome) == Failed <==> outcome == ProviderError
    ensures EffectOf(outcome) == Throttled <==> outcome == RateLimited
  {
  }
}
