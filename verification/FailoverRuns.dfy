/**
  * What every sequential run guarantees (src/proxy.rs), for every provider list and every
  * behaviour of the providers on it.
  */
module FailoverRuns {
  import opened Common
  import opened Outcomes
  import opened Failover

  // ----- vocabulary

  ghost predicate MissReply(c: Candidate, req: Request) {
    && c.config.Some? && c.reply.Response? && Is2xx(c.reply.status)
    && req.historyLookup && IsHistoryMiss(c.config.value.depth, c.reply.body)
  }

  ghost predicate RetryableErrorReply(c: Candidate, req: Request) {
    && c.reply.Response? && Is2xx(c.reply.status) && !MissReply(c, req)
    && RpcCode(c.reply.body).Some? && IsRetryableRpcCode(RpcCode(c.reply.body).value)
  }

  /** The reply settles nothing while another provider can be asked. */
  ghost predicate NoAnswer(c: Candidate, req: Request) {
    || c.reply.TransportError?
    || IsRetryableHttp(c.reply.status)
    || MissReply(c, req)
    || RetryableErrorReply(c, req)
  }

  ghost function ReasonOf(c: Candidate, req: Request): Failure {
    if c.reply.TransportError? then ProviderFault
    else if IsRetryableHttp(c.reply.status) then RetryableHttp
    else if MissReply(c, req) then HistoryMissed
    else if RpcCode(c.reply.body).Some? && IsBehindRpcCode(RpcCode(c.reply.body).value) then BehindTip
    else RetryableRpc
  }

  /** Forwards go down the list, each position at most once, only to providers that can be asked. */
  ghost predicate Orderly(cs: seq<Candidate>, req: Request, f: seq<nat>) {
    && (forall x | 0 <= x < |f| :: f[x] < |cs| && !Unaskable(cs[f[x]], req))
    && (forall x, y | 0 <= x < y < |f| :: f[x] < f[y])
  }

  ghost predicate Recorded(cs: seq<Candidate>, req: Request, log: Log)
    requires Orderly(cs, req, log.forwards)
  {
    && |log.records| == |log.forwards|
    && (forall x | 0 <= x < |log.forwards| ::
          var c := cs[log.forwards[x]];
          log.records[x] == (c.name, LegOutcome(c.reply, req.historyLookup, c.config.value.depth)))
  }

  /** Failovers link each forward to the next, with the reason the former gave. */
  ghost predicate Linked(cs: seq<Candidate>, req: Request, log: Log)
    requires Orderly(cs, req, log.forwards)
  {
    && |log.failovers| == (if |log.forwards| == 0 then 0 else |log.forwards| - 1)
    && (forall x | 0 <= x < |log.failovers| ::
          var from, to := cs[log.forwards[x]], cs[log.forwards[x + 1]];
          log.failovers[x] == Link(from.name, to.name, ReasonOf(from, req)))
  }

  /** Position `x` of the log is a history miss. */
  ghost predicate MissedAt(cs: seq<Candidate>, req: Request, f: seq<nat>, x: int) {
    0 <= x < |f| && f[x] < |cs| && MissReply(cs[f[x]], req)
  }

  ghost predicate FullAfterMiss(cs: seq<Candidate>, req: Request, f: seq<nat>)
    requires Orderly(cs, req, f)
  {
    forall x, y | 0 <= x < y < |f| && MissedAt(cs, req, f, x) :: IsFull(cs[f[y]])
  }

  /** Every position below `i` was asked, cannot be asked, or was shallow after a miss before it. */
  ghost predicate Covered(cs: seq<Candidate>, req: Request, f: seq<nat>, i: nat) {
    forall j | 0 <= j < i && j < |cs| ::
      || Unaskable(cs[j], req)
      || j in f
      || (!IsFull(cs[j]) && exists x :: MissedAt(cs, req, f, x) && f[x] < j)
  }

  ghost predicate FirstMiss(cs: seq<Candidate>, req: Request, f: seq<nat>, x: int) {
    MissedAt(cs, req, f, x) && forall y | 0 <= y < x :: !MissedAt(cs, req, f, y)
  }

  ghost predicate Kept(cs: seq<Candidate>, req: Request, log: Log) {
    && Orderly(cs, req, log.forwards)
    && Recorded(cs, req, log)
    && Linked(cs, req, log)
    && FullAfterMiss(cs, req, log.forwards)
  }

  // ----- the loop invariant

  ghost predicate MissInv(cs: seq<Candidate>, req: Request, f: seq<nat>, miss: Option<Body>)
    requires Orderly(cs, req, f)
  {
    match miss
    case None => forall x | 0 <= x < |f| :: !MissedAt(cs, req, f, x)
    case Some(body) => exists x :: FirstMiss(cs, req, f, x) && body == cs[f[x]].reply.body
  }

  ghost predicate LastRetryable(cs: seq<Candidate>, req: Request, f: seq<nat>, x: int) {
    && 0 <= x < |f| && f[x] < |cs| && RetryableErrorReply(cs[f[x]], req)
    && (forall y | x < y < |f| && f[y] < |cs| :: !RetryableErrorReply(cs[f[y]], req))
  }

  ghost predicate RetriedInv(cs: seq<Candidate>, req: Request, f: seq<nat>, retried: Option<Body>)
    requires Orderly(cs, req, f)
  {
    match retried
    case None => forall x | 0 <= x < |f| :: !RetryableErrorReply(cs[f[x]], req)
    case Some(body) => exists x :: LastRetryable(cs, req, f, x) && body == cs[f[x]].reply.body
  }

  ghost predicate LoopInv(cs: seq<Candidate>, i: nat, req: Request, max: nat, l: Loop, log: Log) {
    var f := log.forwards;
    && i <= |cs|
    && Kept(cs, req, log)
    && (forall x | 0 <= x < |f| :: f[x] < i)
    && NobodyAnswered(cs, req, f)
    && |f| == l.attempt <= max
    && Covered(cs, req, f, i)
    && MissInv(cs, req, f, l.miss)
    && RetriedInv(cs, req, f, l.retried)
    && (|f| > 0 ==> var c := cs[f[|f| - 1]]; l.failed == Some((c.name, ReasonOf(c, req))))
  }

  /** Sheds are logged on the side: nothing else depends on them. */
  lemma ShedKeeps(cs: seq<Candidate>, i: nat, req: Request, max: nat, l: Loop, log: Log, shed: seq<string>)
    requires LoopInv(cs, i, req, max, l, log)
    ensures LoopInv(cs, i, req, max, l, log.(shed := shed))
  {
  }

  lemma SkipCovers(cs: seq<Candidate>, i: nat, req: Request, max: nat, l: Loop, log: Log)
    requires LoopInv(cs, i, req, max, l, log)
    requires i < |cs| && Skips(cs[i], req, l)
    ensures LoopInv(cs, i + 1, req, max, l, log)
  {
    if !Unaskable(cs[i], req) {
      var x :| FirstMiss(cs, req, log.forwards, x);
      assert MissedAt(cs, req, log.forwards, x) && log.forwards[x] < i;
    }
  }

  lemma SkipKeeps(cs: seq<Candidate>, i: nat, req: Request, max: nat, l: Loop, log: Log)
    requires LoopInv(cs, i, req, max, l, log)
    requires i < |cs| && Skips(cs[i], req, l)
    ensures LoopInv(cs, i + 1, req, max, l, Append(log, SkipLog(cs[i], req, l)))
  {
    SkipCovers(cs, i, req, max, l, log);
    SkipOnlySheds(cs[i], req, l, log);
    ShedKeeps(cs, i + 1, req, max, l, log, log.shed + ShedName(cs[i], req, l));
  }

  lemma SkipOnlySheds(c: Candidate, req: Request, l: Loop, log: Log)
    ensures Append(log, SkipLog(c, req, l)) == log.(shed := log.shed + ShedName(c, req, l))
  {
  }

  lemma AskCovers(cs: seq<Candidate>, req: Request, f: seq<nat>, i: nat)
    requires Covered(cs, req, f, i)
    ensures Covered(cs, req, f + [i], i + 1)
  {
    var f' := f + [i];
    forall j | 0 <= j < i + 1 && j < |cs|
      ensures Unaskable(cs[j], req) || j in f' || (!IsFull(cs[j]) && exists x :: MissedAt(cs, req, f', x) && f'[x] < j)
    {
      if j == i {
        assert f'[|f|] == i;
      } else if x :| MissedAt(cs, req, f, x) && f[x] < j {
        assert MissedAt(cs, req, f', x) && f'[x] < j;
      }
    }
  }

  lemma AskKeepsFull(cs: seq<Candidate>, req: Request, f: seq<nat>, i: nat)
    requires Orderly(cs, req, f) && Orderly(cs, req, f + [i]) && FullAfterMiss(cs, req, f)
    requires i < |cs| && (IsFull(cs[i]) || forall x | 0 <= x < |f| :: !MissedAt(cs, req, f, x))
    ensures FullAfterMiss(cs, req, f + [i])
  {
    var f' := f + [i];
    forall x, y | 0 <= x < y < |f'| && MissedAt(cs, req, f', x)
      ensures IsFull(cs[f'[y]])
    {
      assert MissedAt(cs, req, f, x);
    }
  }

  lemma AskOrderly(cs: seq<Candidate>, req: Request, f: seq<nat>, i: nat)
    requires Orderly(cs, req, f) && (forall x | 0 <= x < |f| :: f[x] < i)
    requires i < |cs| && !Unaskable(cs[i], req)
    ensures Orderly(cs, req, f + [i])
  {
  }

  lemma AskLinked(cs: seq<Candidate>, req: Request, log: Log, i: nat, log': Log)
    requires Orderly(cs, req, log.forwards) && Orderly(cs, req, log'.forwards) && log'.forwards == log.forwards + [i]
    requires Linked(cs, req, log) && i < |cs|
    requires |log.forwards| == 0 ==> log'.failovers == log.failovers
    requires |log.forwards| > 0 ==>
      var from := cs[log.forwards[|log.forwards| - 1]];
      log'.failovers == log.failovers + [Link(from.name, cs[i].name, ReasonOf(from, req))]
    ensures Linked(cs, req, log')
  {
  }

  lemma AskRecorded(cs: seq<Candidate>, req: Request, log: Log, i: nat, log': Log)
    requires Orderly(cs, req, log.forwards) && Orderly(cs, req, log'.forwards) && log'.forwards == log.forwards + [i]
    requires Recorded(cs, req, log) && i < |cs| && cs[i].config.Some?
    requires log'.records
          == log.records + [(cs[i].name, LegOutcome(cs[i].reply, req.historyLookup, cs[i].config.value.depth))]
    ensures Recorded(cs, req, log')
  {
  }

  lemma AskKeepsOrder(cs: seq<Candidate>, i: nat, req: Request, max: nat, l: Loop, log: Log)
    requires LoopInv(cs, i, req, max, l, log)
    requires i < |cs| && !Skips(cs[i], req, l)
    ensures Kept(cs, req, Append(log, AskLog(cs[i], i, req, l)))
    ensures Covered(cs, req, log.forwards + [i], i + 1)
  {
    var log' := Append(log, AskLog(cs[i], i, req, l));
    AskOrderly(cs, req, log.forwards, i);
    AskCovers(cs, req, log.forwards, i);
    AskKeepsFull(cs, req, log.forwards, i);
    AskLinked(cs, req, log, i, log');
    AskRecorded(cs, req, log, i, log');
  }

  lemma RetryMeansNoAnswer(cs: seq<Candidate>, i: nat, req: Request, max: nat, l: Loop)
    requires i < |cs| && cs[i].config.Some? && VerdictAt(cs, i, req, max, l).Retry?
    ensures NoAnswer(cs[i], req)
    ensures VerdictAt(cs, i, req, max, l).reason == ReasonOf(cs[i], req)
    ensures VerdictAt(cs, i, req, max, l).keepMiss == if MissReply(cs[i], req) then Some(cs[i].reply.body) else None
    ensures VerdictAt(cs, i, req, max, l).keepError
         == if RetryableErrorReply(cs[i], req) then Some(cs[i].reply.body) else None
  {
  }

  lemma CarryMiss(cs: seq<Candidate>, req: Request, f: seq<nat>, i: nat, miss: Option<Body>, keep: Option<Body>)
    requires Orderly(cs, req, f + [i]) && Orderly(cs, req, f) && MissInv(cs, req, f, miss)
    requires i < |cs| && keep == if MissReply(cs[i], req) then Some(cs[i].reply.body) else None
    ensures MissInv(cs, req, f + [i], OrElse(miss, keep))
  {
    var f' := f + [i];
    assert forall x | 0 <= x < |f| :: f'[x] == f[x] && (MissedAt(cs, req, f', x) <==> MissedAt(cs, req, f, x));
    if miss.Some? {
      var x :| FirstMiss(cs, req, f, x) && miss.value == cs[f[x]].reply.body;
      assert FirstMiss(cs, req, f', x);
    } else if keep.Some? {
      assert FirstMiss(cs, req, f', |f|);
    }
  }

  lemma CarryRetried(cs: seq<Candidate>, req: Request, f: seq<nat>, i: nat, retried: Option<Body>, keep: Option<Body>)
    requires Orderly(cs, req, f + [i]) && Orderly(cs, req, f) && RetriedInv(cs, req, f, retried)
    requires i < |cs| && keep == if RetryableErrorReply(cs[i], req) then Some(cs[i].reply.body) else None
    ensures RetriedInv(cs, req, f + [i], OrElse(keep, retried))
  {
    var f' := f + [i];
    assert forall x | 0 <= x < |f| :: f'[x] == f[x];
    if keep.Some? {
      assert LastRetryable(cs, req, f', |f|);
    } else if retried.Some? {
      var x :| LastRetryable(cs, req, f, x) && retried.value == cs[f[x]].reply.body;
      assert LastRetryable(cs, req, f', x);
    }
  }

  lemma NobodyAppend(cs: seq<Candidate>, req: Request, f: seq<nat>, i: nat)
    requires NobodyAnswered(cs, req, f) && i < |cs| && NoAnswer(cs[i], req)
    ensures NobodyAnswered(cs, req, f + [i])
  {
  }

  lemma RetryKeeps(cs: seq<Candidate>, i: nat, req: Request, max: nat, l: Loop, log: Log)
    requires LoopInv(cs, i, req, max, l, log)
    requires i < |cs| && l.attempt < max && !Skips(cs[i], req, l)
    requires VerdictAt(cs, i, req, max, l).Retry?
    ensures LoopInv(cs, i + 1, req, max, Carry(l, cs[i].name, VerdictAt(cs, i, req, max, l)),
                    Append(log, AskLog(cs[i], i, req, l)))
  {
    AskKeepsOrder(cs, i, req, max, l, log);
    RetryMeansNoAnswer(cs, i, req, max, l);
    var v := VerdictAt(cs, i, req, max, l);
    var log' := Append(log, AskLog(cs[i], i, req, l));
    assert log'.forwards == log.forwards + [i];
    NobodyAppend(cs, req, log.forwards, i);
    assert log'.forwards[|log'.forwards| - 1] == i;
    CarryMiss(cs, req, log.forwards, i, l.miss, v.keepMiss);
    CarryRetried(cs, req, log.forwards, i, l.retried, v.keepError);
  }

  // ----- how a run ends

  ghost predicate NobodyAnswered(cs: seq<Candidate>, req: Request, f: seq<nat>) {
    forall x | 0 <= x < |f| && f[x] < |cs| :: NoAnswer(cs[f[x]], req)
  }

  /** The last provider asked settled it; its status passes through unless it is a 2xx. */
  ghost predicate AnsweredEnd(cs: seq<Candidate>, req: Request, max: nat, log: Log, finish: Finish, p: nat)
    requires Kept(cs, req, log)
  {
    var f := log.forwards;
    && |f| > 0 && f[|f| - 1] == p && cs[p].reply.Response?
    && NobodyAnswered(cs, req, f[..|f| - 1])
    && !MissReply(cs[p], req) && !IsRetryableHttp(cs[p].reply.status)
    && (RetryableErrorReply(cs[p], req) ==> |f| == max)
    && finish.body == cs[p].reply.body
    && finish.status == (if Is2xx(cs[p].reply.status) then 200 else cs[p].reply.status)
    && finish.acknowledgedBy == (if log.records[|f| - 1].1 == OkOutcome then Some(cs[p].name) else None)
  }

  /** A miss with nobody left who could know better. */
  ghost predicate MissEnd(cs: seq<Candidate>, req: Request, max: nat, log: Log, finish: Finish, p: nat)
    requires Kept(cs, req, log)
  {
    var f := log.forwards;
    && |f| > 0 && f[|f| - 1] == p && MissReply(cs[p], req)
    && NobodyAnswered(cs, req, f)
    && finish == Finish(200, cs[p].reply.body, None)
    && Covered(cs, req, f, p)
    && (|f| == max || !AnyFull(cs[p + 1..]))
  }

  /** The list or the budget ran out: the first miss, else the last retryable error, else a 502. */
  ghost predicate ExhaustedEnd(cs: seq<Candidate>, req: Request, max: nat, log: Log, finish: Finish, exit: Exit)
    requires Kept(cs, req, log)
  {
    var f := log.forwards;
    && NobodyAnswered(cs, req, f)
    && (|f| == max || Covered(cs, req, f, |cs|))
    && match exit
       case RememberedMiss =>
         exists x :: FirstMiss(cs, req, f, x) && finish == Finish(200, cs[f[x]].reply.body, None)
       case RememberedRetry =>
         && MissInv(cs, req, f, None)
         && (exists x :: LastRetryable(cs, req, f, x) && finish == Finish(200, cs[f[x]].reply.body, None))
       case _ =>
         && MissInv(cs, req, f, None) && RetriedInv(cs, req, f, None)
         && finish == Finish(BAD_GATEWAY, ALL_FAILED, None)
  }

  /** What each exit means for the asked providers and the response. */
  ghost predicate Concluded(cs: seq<Candidate>, req: Request, max: nat, t: Trace) {
    && Kept(cs, req, t.log)
    && |t.log.forwards| <= max
    && |t.finishes| == 1
    && match t.exit
       case Answered(p) => AnsweredEnd(cs, req, max, t.log, t.finishes[0], p)
       case MissAt(p) => MissEnd(cs, req, max, t.log, t.finishes[0], p)
       case _ => ExhaustedEnd(cs, req, max, t.log, t.finishes[0], t.exit)
  }

  lemma EndingConcludes(cs: seq<Candidate>, i: nat, req: Request, max: nat, l: Loop, log: Log)
    requires LoopInv(cs, i, req, max, l, log)
    requires i == |cs| || l.attempt >= max
    ensures Concluded(cs, req, max, Trace(log, [Ending(l).0], Ending(l).1))
  {
  }

  lemma AnswerEnds(cs: seq<Candidate>, i: nat, req: Request, max: nat, l: Loop, log: Log, log': Log)
    requires NobodyAnswered(cs, req, log.forwards) && |log.forwards| == l.attempt < max
    requires i < |cs| && cs[i].config.Some?
    requires log' == Append(log, AskLog(cs[i], i, req, l)) && Kept(cs, req, log')
    requires VerdictAt(cs, i, req, max, l).Return? && VerdictAt(cs, i, req, max, l).exit.Answered?
    ensures VerdictAt(cs, i, req, max, l).exit.at == i
    ensures AnsweredEnd(cs, req, max, log', VerdictAt(cs, i, req, max, l).finish, i)
  {
    assert log'.forwards[..|log.forwards|] == log.forwards;
    assert log'.records[|log.forwards|] == AskLog(cs[i], i, req, l).records[0];
  }

  lemma MissEnds(cs: seq<Candidate>, i: nat, req: Request, max: nat, l: Loop, log: Log, log': Log)
    requires LoopInv(cs, i, req, max, l, log)
    requires i < |cs| && l.attempt < max && !Skips(cs[i], req, l)
    requires log' == Append(log, AskLog(cs[i], i, req, l)) && Kept(cs, req, log')
    requires Covered(cs, req, log'.forwards, i + 1)
    requires VerdictAt(cs, i, req, max, l).Return? && VerdictAt(cs, i, req, max, l).exit.MissAt?
    ensures VerdictAt(cs, i, req, max, l).exit.at == i
    ensures MissEnd(cs, req, max, log', VerdictAt(cs, i, req, max, l).finish, i)
  {
    assert NobodyAnswered(cs, req, log.forwards);
    assert log'.forwards == log.forwards + [i];
  }

  lemma ReturnConcludes(cs: seq<Candidate>, i: nat, req: Request, max: nat, l: Loop, log: Log)
    requires LoopInv(cs, i, req, max, l, log)
    requires i < |cs| && l.attempt < max && !Skips(cs[i], req, l)
    requires VerdictAt(cs, i, req, max, l).Return?
    ensures var v := VerdictAt(cs, i, req, max, l);
            Concluded(cs, req, max, Trace(Append(log, AskLog(cs[i], i, req, l)), [v.finish], v.exit))
  {
    AskKeepsOrder(cs, i, req, max, l, log);
    var log' := Append(log, AskLog(cs[i], i, req, l));
    var v := VerdictAt(cs, i, req, max, l);
    if v.exit.Answered? {
      AnswerEnds(cs, i, req, max, l, log, log');
    } else {
      MissEnds(cs, i, req, max, l, log, log');
    }
  }

  lemma {:induction false} RunConcludes(cs: seq<Candidate>, i: nat, req: Request, max: nat, l: Loop, log: Log)
    requires LoopInv(cs, i, req, max, l, log)
    ensures Concluded(cs, req, max, RunFrom(cs, i, req, max, l, log))
    decreases |cs| - i, 1
  {
    if i == |cs| || l.attempt >= max {
      EndingConcludes(cs, i, req, max, l, log);
    } else if Skips(cs[i], req, l) {
      SkipConcludes(cs, i, req, max, l, log);
    } else {
      AskConcludes(cs, i, req, max, l, log);
    }
  }

  lemma {:induction false} SkipConcludes(cs: seq<Candidate>, i: nat, req: Request, max: nat, l: Loop, log: Log)
    requires LoopInv(cs, i, req, max, l, log)
    requires i < |cs| && l.attempt < max && Skips(cs[i], req, l)
    ensures Concluded(cs, req, max, RunFrom(cs, i, req, max, l, log))
    decreases |cs| - i, 0
  {
    var log' := Append(log, SkipLog(cs[i], req, l));
    SkipKeeps(cs, i, req, max, l, log);
    RunConcludes(cs, i + 1, req, max, l, log');
    RunSkips(cs, i, req, max, l, log, log');
  }

  lemma RunSkips(cs: seq<Candidate>, i: nat, req: Request, max: nat, l: Loop, log: Log, log': Log)
    requires i < |cs| && l.attempt < max && Skips(cs[i], req, l) && log' == Append(log, SkipLog(cs[i], req, l))
    ensures RunFrom(cs, i, req, max, l, log) == RunFrom(cs, i + 1, req, max, l, log')
  {
  }

  lemma RunAsks(
      cs: seq<Candidate>, i: nat, req: Request, max: nat, l: Loop, log: Log, v: Verdict, log': Log)
    requires i < |cs| && l.attempt < max && !Skips(cs[i], req, l)
    requires v == VerdictAt(cs, i, req, max, l) && log' == Append(log, AskLog(cs[i], i, req, l))
    ensures v.Return? ==> RunFrom(cs, i, req, max, l, log) == Trace(log', [v.finish], v.exit)
    ensures v.Retry? ==>
      RunFrom(cs, i, req, max, l, log) == RunFrom(cs, i + 1, req, max, Carry(l, cs[i].name, v), log')
  {
  }

  lemma {:induction false} AskConcludes(cs: seq<Candidate>, i: nat, req: Request, max: nat, l: Loop, log: Log)
    requires LoopInv(cs, i, req, max, l, log)
    requires i < |cs| && l.attempt < max && !Skips(cs[i], req, l)
    ensures Concluded(cs, req, max, RunFrom(cs, i, req, max, l, log))
    decreases |cs| - i, 0
  {
    var v := VerdictAt(cs, i, req, max, l);
    var log' := Append(log, AskLog(cs[i], i, req, l));
    RunAsks(cs, i, req, max, l, log, v, log');
    if v.Return? {
      ReturnConcludes(cs, i, req, max, l, log);
    } else {
      RetryKeeps(cs, i, req, max, l, log);
      RunConcludes(cs, i + 1, req, max, Carry(l, cs[i].name, v), log');
    }
  }

  /**
    * Every run: at most min(max_retries + 1, n) forwards, down the list, each position once,
    * only full-history providers after the first miss; one recorded outcome per forward, the
    * one a broadcast leg would record; failovers linking consecutive forwards; and exactly one
    * finish, whose status and body are those of the exit taken.
    */
  lemma EveryRunConcludes(cs: seq<Candidate>, req: Request)
    ensures Concluded(cs, req, MaxAttempts(cs, req), Run(cs, req))
  {
    RunConcludes(cs, 0, req, MaxAttempts(cs, req), INIT, EMPTY);
  }

  /**
    * A history miss goes back to the client only if the budget is spent, or every full-history
    * provider after the first miss was shed, unusable, or asked without answering.
    */
  lemma MissReturnedOnlyWhenExhausted(cs: seq<Candidate>, req: Request, first: nat, j: nat)
    requires var t := Run(cs, req); t.exit.RememberedMiss? || t.exit.MissAt?
    requires FirstMiss(cs, req, Run(cs, req).log.forwards, first)
    requires Run(cs, req).log.forwards[first] < j < |cs| && IsFull(cs[j])
    requires |Run(cs, req).log.forwards| < MaxAttempts(cs, req)
    ensures Unaskable(cs[j], req) || (j in Run(cs, req).log.forwards && NoAnswer(cs[j], req))
  {
    EveryRunConcludes(cs, req);
    var t := Run(cs, req);
    var f := t.log.forwards;
    if t.exit.MissAt? {
      var p := t.exit.at;
      assert f[|f| - 1] == p;
      assert forall n | p < n < |cs| :: cs[n] == cs[p + 1..][n - p - 1];
    }
  }
}
