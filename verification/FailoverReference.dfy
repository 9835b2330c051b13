/**
  * A simple reference for who gets asked in a sequential run (src/proxy.rs), the proof that
  * the loop asks exactly those, and what follows: providers that cannot be asked do not matter.
  */
module FailoverReference {
  import opened Common
  import opened Outcomes
  import opened Failover
  import opened FailoverRuns

  /**
    * The providers asked: walk down the list with a budget, pass over those that cannot be
    * asked and, after a miss, the shallow ones; stop at the first answer.
    */
  ghost function Asks(cs: seq<Candidate>, req: Request, budget: nat, missed: bool): seq<Candidate> {
    if cs == [] || budget == 0 then []
    else if Unaskable(cs[0], req) || (missed && !IsFull(cs[0])) then Asks(cs[1..], req, budget, missed)
    else if !NoAnswer(cs[0], req) then [cs[0]]
    else [cs[0]] + Asks(cs[1..], req, budget - 1, missed || MissReply(cs[0], req))
  }

  ghost predicate InRange(cs: seq<Candidate>, f: seq<nat>) {
    forall x | 0 <= x < |f| :: f[x] < |cs|
  }

  ghost function Pick(cs: seq<Candidate>, f: seq<nat>): seq<Candidate>
    requires InRange(cs, f)
  {
    seq(|f|, x requires 0 <= x < |f| => cs[f[x]])
  }

  /** After a miss, with no full-history provider left, nobody else is asked. */
  lemma {:induction false} NoFullNoAsks(cs: seq<Candidate>, req: Request, budget: nat)
    requires !AnyFull(cs)
    ensures Asks(cs, req, budget, true) == []
  {
    if cs != [] && budget > 0 {
      assert !IsFull(cs[0]);
      assert forall i | 0 <= i < |cs[1..]| :: cs[1..][i] == cs[i + 1];
      NoFullNoAsks(cs[1..], req, budget);
    }
  }

  lemma {:induction false} RunAsksFrom(cs: seq<Candidate>, i: nat, req: Request, max: nat, l: Loop, log: Log)
    requires i <= |cs| && l.attempt <= max && InRange(cs, log.forwards)
    ensures var f := RunFrom(cs, i, req, max, l, log).log.forwards;
            InRange(cs, f) && Pick(cs, f) == Pick(cs, log.forwards) + Asks(cs[i..], req, max - l.attempt, l.miss.Some?)
    decreases |cs| - i
  {
    if i < |cs| && l.attempt < max {
      var c, rest := cs[i], cs[i + 1..];
      assert cs[i..][0] == c && cs[i..][1..] == rest;
      if Skips(c, req, l) {
        var log' := Append(log, SkipLog(c, req, l));
        assert log'.forwards == log.forwards;
        RunAsksFrom(cs, i + 1, req, max, l, log');
      } else {
        var log' := Append(log, AskLog(c, i, req, l));
        assert log'.forwards == log.forwards + [i];
        assert Pick(cs, log'.forwards) == Pick(cs, log.forwards) + [c];
        var v := VerdictAt(cs, i, req, max, l);
        if v.Return? {
          ReturnAsksNobody(cs, i, req, max, l);
        } else {
          RetryMeansNoAnswer(cs, i, req, max, l);
          RunAsksFrom(cs, i + 1, req, max, Carry(l, c.name, v), log');
        }
      }
    }
  }

  /** Where the loop returns, the reference asks nobody further either. */
  lemma ReturnAsksNobody(cs: seq<Candidate>, i: nat, req: Request, max: nat, l: Loop)
    requires i < |cs| && l.attempt < max && !Skips(cs[i], req, l)
    requires VerdictAt(cs, i, req, max, l).Return?
    ensures NoAnswer(cs[i], req) ==>
      Asks(cs[i + 1..], req, max - l.attempt - 1, l.miss.Some? || MissReply(cs[i], req)) == []
  {
    if MissReply(cs[i], req) && l.attempt + 1 < max {
      NoFullNoAsks(cs[i + 1..], req, max - l.attempt - 1);
    }
  }

  lemma {:induction false} BudgetBeyondLength(cs: seq<Candidate>, req: Request, a: nat, b: nat, missed: bool)
    requires a >= |cs| && b >= |cs|
    ensures Asks(cs, req, a, missed) == Asks(cs, req, b, missed)
    decreases |cs|
  {
    if cs != [] {
      BudgetBeyondLength(cs[1..], req, a, b, missed);
      BudgetBeyondLength(cs[1..], req, a - 1, b - 1, missed || MissReply(cs[0], req));
    }
  }

  ghost function AskedBy(cs: seq<Candidate>, req: Request): seq<Candidate> {
    Asks(cs, req, req.maxRetries + 1, false)
  }

  /** The loop asks exactly the providers of the reference walk, in that order. */
  lemma RunAsksReference(cs: seq<Candidate>, req: Request)
    ensures InRange(cs, Run(cs, req).log.forwards)
    ensures Pick(cs, Run(cs, req).log.forwards) == AskedBy(cs, req)
  {
    RunAsksFrom(cs, 0, req, MaxAttempts(cs, req), INIT, EMPTY);
    assert cs[0..] == cs;
    if req.maxRetries + 1 > |cs| {
      BudgetBeyondLength(cs, req, |cs|, req.maxRetries + 1, false);
    }
  }

  // ----- providers that cannot be asked do not matter

  ghost function Askable(cs: seq<Candidate>, req: Request): seq<Candidate> {
    if cs == [] then []
    else (if Unaskable(cs[0], req) then [] else [cs[0]]) + Askable(cs[1..], req)
  }

  lemma {:induction false} AsksOnlyAskable(cs: seq<Candidate>, req: Request, budget: nat, missed: bool)
    ensures Asks(cs, req, budget, missed) == Asks(Askable(cs, req), req, budget, missed)
    decreases |cs|
  {
    if cs != [] {
      var rest := Askable(cs[1..], req);
      AsksOnlyAskable(cs[1..], req, budget, missed);
      if Unaskable(cs[0], req) {
        assert Askable(cs, req) == rest;
      } else {
        assert Askable(cs, req) == [cs[0]] + rest && ([cs[0]] + rest)[1..] == rest;
        if budget > 0 {
          AsksOnlyAskable(cs[1..], req, budget - 1, missed || MissReply(cs[0], req));
        }
      }
    }
  }

  /** Same providers asked means same outcomes recorded and same failovers emitted. */
  lemma SamePickSameLog(cs: seq<Candidate>, cs': seq<Candidate>, req: Request, a: Log, b: Log)
    requires Kept(cs, req, a) && Kept(cs', req, b)
    requires InRange(cs, a.forwards) && InRange(cs', b.forwards) && Pick(cs, a.forwards) == Pick(cs', b.forwards)
    ensures a.records == b.records && a.failovers == b.failovers
  {
    assert |Pick(cs, a.forwards)| == |a.forwards| && |Pick(cs', b.forwards)| == |b.forwards|;
    forall x | 0 <= x < |a.forwards|
      ensures cs[a.forwards[x]] == cs'[b.forwards[x]]
    {
      assert Pick(cs, a.forwards)[x] == cs[a.forwards[x]] && Pick(cs', b.forwards)[x] == cs'[b.forwards[x]];
    }
    forall x | 0 <= x < |a.failovers|
      ensures a.failovers[x] == b.failovers[x]
    {
      assert cs[a.forwards[x + 1]] == cs'[b.forwards[x + 1]];
    }
  }

  /**
    * Adding or deleting shed, client-less or unconfigured providers anywhere in the list leaves
    * the providers asked, the outcomes recorded and the failovers emitted unchanged: a capped
    * provider cannot starve one behind it.
    */
  lemma UnaskableDoNotMatter(cs: seq<Candidate>, cs': seq<Candidate>, req: Request)
    requires Askable(cs, req) == Askable(cs', req)
    ensures AskedBy(cs, req) == AskedBy(cs', req)
    ensures Run(cs, req).log.records == Run(cs', req).log.records
    ensures Run(cs, req).log.failovers == Run(cs', req).log.failovers
  {
    AsksOnlyAskable(cs, req, req.maxRetries + 1, false);
    AsksOnlyAskable(cs', req, req.maxRetries + 1, false);
    LogOfRun(cs, req);
    LogOfRun(cs', req);
    SamePickSameLog(cs, cs', req, Run(cs, req).log, Run(cs', req).log);
  }

  lemma LogOfRun(cs: seq<Candidate>, req: Request)
    ensures var log := Run(cs, req).log;
            Kept(cs, req, log) && InRange(cs, log.forwards) && Pick(cs, log.forwards) == AskedBy(cs, req)
  {
    RunAsksReference(cs, req);
    EveryRunConcludes(cs, req);
  }

  // ----- and when they change the response

  /** Nothing can follow the last of the forwards `f`, so its reply goes back to the client as it came. */
  ghost predicate LastWord(cs: seq<Candidate>, req: Request, max: nat, f: seq<nat>)
    requires InRange(cs, f)
  {
    && f != []
    && var p := f[|f| - 1];
    && ((MissReply(cs[p], req) && (|f| == max || !AnyFull(cs[p + 1..])))
        || (RetryableErrorReply(cs[p], req) && |f| == max))
  }

  ghost predicate EndsEarly(exit: Exit) {
    exit.Answered? || exit.MissAt?
  }

  /** The run returns a reply without an answer in it exactly when that reply is the last word. */
  lemma {:induction false} ExitFromLastWord(cs: seq<Candidate>, i: nat, req: Request, max: nat, l: Loop, log: Log)
    requires i <= |cs| && InRange(cs, log.forwards) && |log.forwards| == l.attempt <= max
    requires !LastWord(cs, req, max, log.forwards)
    ensures var t := RunFrom(cs, i, req, max, l, log);
            && InRange(cs, t.log.forwards)
            && (EndsEarly(t.exit) ==> t.log.forwards != [])
            && (EndsEarly(t.exit) && NoAnswer(cs[t.log.forwards[|t.log.forwards| - 1]], req)
                ==> LastWord(cs, req, max, t.log.forwards))
            && (!EndsEarly(t.exit) ==> !LastWord(cs, req, max, t.log.forwards))
    decreases |cs| - i
  {
    if i < |cs| && l.attempt < max {
      if Skips(cs[i], req, l) {
        var log' := Append(log, SkipLog(cs[i], req, l));
        assert log'.forwards == log.forwards;
        ExitFromLastWord(cs, i + 1, req, max, l, log');
      } else {
        var log' := Append(log, AskLog(cs[i], i, req, l));
        assert log'.forwards == log.forwards + [i];
        var v := VerdictAt(cs, i, req, max, l);
        if v.Retry? {
          RetryMeansNoAnswer(cs, i, req, max, l);
          RetryIsNotLast(cs, i, req, max, l);
          ExitFromLastWord(cs, i + 1, req, max, Carry(l, cs[i].name, v), log');
        }
      }
    }
  }

  lemma RetryIsNotLast(cs: seq<Candidate>, i: nat, req: Request, max: nat, l: Loop)
    requires i < |cs| && cs[i].config.Some? && VerdictAt(cs, i, req, max, l).Retry?
    ensures MissReply(cs[i], req) ==> l.attempt + 1 < max && AnyFull(cs[i + 1..])
    ensures RetryableErrorReply(cs[i], req) ==> l.attempt + 1 < max
  {
  }

  ghost predicate LastRetryableIn(asked: seq<Candidate>, req: Request, x: int) {
    && 0 <= x < |asked| && RetryableErrorReply(asked[x], req)
    && (forall y | x < y < |asked| :: !RetryableErrorReply(asked[y], req))
  }

  ghost predicate FirstMissIn(asked: seq<Candidate>, req: Request, x: int) {
    && 0 <= x < |asked| && MissReply(asked[x], req)
    && (forall y | 0 <= y < x :: !MissReply(asked[y], req))
  }

  /** What a run returns, read off the providers asked and whether the last reply was the last word. */
  ghost predicate FinishFits(asked: seq<Candidate>, req: Request, last: bool, finish: Finish) {
    if asked != [] && !NoAnswer(asked[|asked| - 1], req) then
      var c := asked[|asked| - 1];
      && finish.body == c.reply.body
      && finish.status == (if Is2xx(c.reply.status) then 200 else c.reply.status)
      && finish.acknowledgedBy == (if Is2xx(c.reply.status) && !HasRpcError(c.reply.body) then Some(c.name) else None)
    else if last then
      asked != [] && asked[|asked| - 1].reply.Response? && finish == Finish(200, asked[|asked| - 1].reply.body, None)
    else if exists x :: FirstMissIn(asked, req, x) then
      exists x :: FirstMissIn(asked, req, x) && finish == Finish(200, asked[x].reply.body, None)
    else if exists x :: LastRetryableIn(asked, req, x) then
      exists x :: LastRetryableIn(asked, req, x) && finish == Finish(200, asked[x].reply.body, None)
    else finish == Finish(BAD_GATEWAY, ALL_FAILED, None)
  }

  lemma EarlyExitFits(cs: seq<Candidate>, req: Request, max: nat, t: Trace, asked: seq<Candidate>)
    requires Concluded(cs, req, max, t) && EndsEarly(t.exit)
    requires InRange(cs, t.log.forwards) && asked == Pick(cs, t.log.forwards)
    requires t.log.forwards != []
    requires NoAnswer(cs[t.log.forwards[|t.log.forwards| - 1]], req) ==> LastWord(cs, req, max, t.log.forwards)
    ensures FinishFits(asked, req, LastWord(cs, req, max, t.log.forwards), t.finishes[0])
  {
    var f := t.log.forwards;
    assert asked[|f| - 1] == cs[f[|f| - 1]];
  }

  lemma ExhaustionFits(cs: seq<Candidate>, req: Request, max: nat, t: Trace, asked: seq<Candidate>)
    requires Concluded(cs, req, max, t) && !EndsEarly(t.exit)
    requires InRange(cs, t.log.forwards) && asked == Pick(cs, t.log.forwards)
    ensures FinishFits(asked, req, false, t.finishes[0])
  {
    var f := t.log.forwards;
    assert forall x | 0 <= x < |f| :: asked[x] == cs[f[x]];
    assert forall x | 0 <= x < |f| :: MissedAt(cs, req, f, x) <==> MissReply(asked[x], req);
    assert f != [] ==> NoAnswer(asked[|f| - 1], req);
    RememberedFits(cs, req, f, asked, t.exit, t.finishes[0]);
  }

  lemma RememberedFits(
      cs: seq<Candidate>, req: Request, f: seq<nat>, asked: seq<Candidate>, exit: Exit, finish: Finish)
    requires Orderly(cs, req, f) && |asked| == |f| && (forall x | 0 <= x < |f| :: asked[x] == cs[f[x]])
    requires forall x | 0 <= x < |f| :: MissedAt(cs, req, f, x) <==> MissReply(asked[x], req)
    requires f != [] ==> NoAnswer(asked[|f| - 1], req)
    requires match exit
             case RememberedMiss =>
               exists x :: FirstMiss(cs, req, f, x) && finish == Finish(200, cs[f[x]].reply.body, None)
             case RememberedRetry =>
               && MissInv(cs, req, f, None)
               && (exists x :: LastRetryable(cs, req, f, x) && finish == Finish(200, cs[f[x]].reply.body, None))
             case _ =>
               && MissInv(cs, req, f, None) && RetriedInv(cs, req, f, None)
               && finish == Finish(BAD_GATEWAY, ALL_FAILED, None)
    ensures FinishFits(asked, req, false, finish)
  {
    match exit {
      case RememberedMiss =>
        var x :| FirstMiss(cs, req, f, x) && finish == Finish(200, cs[f[x]].reply.body, None);
        assert FirstMissIn(asked, req, x);
      case RememberedRetry =>
        var x :| LastRetryable(cs, req, f, x) && finish == Finish(200, cs[f[x]].reply.body, None);
        assert LastRetryableIn(asked, req, x);
      case _ =>
    }
  }

  /**
    * Walks down the list as `Asks` does, to the last provider asked: its reply holds no answer, and
    * goes back as it came for want of an attempt or, after a miss, of a full-history provider.
    */
  ghost predicate EndsOn(cs: seq<Candidate>, req: Request, budget: nat, missed: bool) {
    && cs != [] && budget > 0
    && if Unaskable(cs[0], req) || (missed && !IsFull(cs[0])) then EndsOn(cs[1..], req, budget, missed)
       else
         && NoAnswer(cs[0], req)
         && var missed' := missed || MissReply(cs[0], req);
            if Asks(cs[1..], req, budget - 1, missed') != [] then EndsOn(cs[1..], req, budget - 1, missed')
            else LastOf(cs, req, budget)
  }

  /** Nothing can follow the first of `cs`, asked on a budget that counts it. */
  ghost predicate LastOf(cs: seq<Candidate>, req: Request, budget: nat)
    requires cs != []
  {
    || (MissReply(cs[0], req) && (budget == 1 || !AnyFull(cs[1..])))
    || (RetryableErrorReply(cs[0], req) && budget == 1)
  }

  /** The last reply of the run is returned as it came, a condition on the list and the budget alone. */
  ghost predicate CutShort(cs: seq<Candidate>, req: Request) {
    EndsOn(cs, req, MaxAttempts(cs, req), false)
  }

  /** What is asked from position `i` on, and whether it ends on a reply without an answer. */
  ghost predicate WalkMatches(
      cs: seq<Candidate>, i: nat, req: Request, max: nat, l: Loop, before: seq<nat>, after: seq<nat>)
    requires i <= |cs| && l.attempt <= max && InRange(cs, before) && InRange(cs, after)
  {
    var missed := l.miss.Some?;
    if Asks(cs[i..], req, max - l.attempt, missed) == [] then
      after == before && !EndsOn(cs[i..], req, max - l.attempt, missed)
    else EndsOn(cs[i..], req, max - l.attempt, missed) == LastWord(cs, req, max, after)
  }

  lemma {:induction false} WalkFrom(cs: seq<Candidate>, i: nat, req: Request, max: nat, l: Loop, log: Log)
    requires i <= |cs| && InRange(cs, log.forwards) && |log.forwards| == l.attempt <= max
    ensures var f := RunFrom(cs, i, req, max, l, log).log.forwards;
            InRange(cs, f) && WalkMatches(cs, i, req, max, l, log.forwards, f)
    decreases |cs| - i
  {
    if i < |cs| && l.attempt < max {
      assert cs[i..][0] == cs[i] && cs[i..][1..] == cs[i + 1..];
      if Skips(cs[i], req, l) {
        var log' := Append(log, SkipLog(cs[i], req, l));
        assert log'.forwards == log.forwards;
        WalkFrom(cs, i + 1, req, max, l, log');
      } else {
        WalkAsk(cs, i, req, max, l, log);
      }
    }
  }

  lemma {:induction false} WalkAsk(cs: seq<Candidate>, i: nat, req: Request, max: nat, l: Loop, log: Log)
    requires i < |cs| && InRange(cs, log.forwards) && |log.forwards| == l.attempt < max && !Skips(cs[i], req, l)
    ensures var f := RunFrom(cs, i, req, max, l, log).log.forwards;
            InRange(cs, f) && WalkMatches(cs, i, req, max, l, log.forwards, f)
    decreases |cs| - i, 0
  {
    var log' := Append(log, AskLog(cs[i], i, req, l));
    assert log'.forwards == log.forwards + [i];
    assert cs[i..][0] == cs[i] && cs[i..][1..] == cs[i + 1..];
    var v := VerdictAt(cs, i, req, max, l);
    if v.Return? {
      ReturnAsksNobody(cs, i, req, max, l);
    } else {
      RetryMeansNoAnswer(cs, i, req, max, l);
      WalkFrom(cs, i + 1, req, max, Carry(l, cs[i].name, v), log');
    }
  }

  lemma CutShortIsLastWord(cs: seq<Candidate>, req: Request)
    ensures var f := Run(cs, req).log.forwards;
            InRange(cs, f) && CutShort(cs, req) == LastWord(cs, req, MaxAttempts(cs, req), f)
  {
    WalkFrom(cs, 0, req, MaxAttempts(cs, req), INIT, EMPTY);
    assert cs[0..] == cs;
  }

  /** The response, from the providers asked: an answer, else the last word, else what was remembered, else a 502. */
  lemma FinishOfRun(cs: seq<Candidate>, req: Request)
    ensures |Run(cs, req).finishes| == 1
    ensures FinishFits(AskedBy(cs, req), req, CutShort(cs, req), Run(cs, req).finishes[0])
  {
    var max := MaxAttempts(cs, req);
    RunAsksReference(cs, req);
    EveryRunConcludes(cs, req);
    ExitFromLastWord(cs, 0, req, max, INIT, EMPTY);
    CutShortIsLastWord(cs, req);
    if EndsEarly(Run(cs, req).exit) {
      EarlyExitFits(cs, req, max, Run(cs, req), AskedBy(cs, req));
    } else {
      ExhaustionFits(cs, req, max, Run(cs, req), AskedBy(cs, req));
    }
  }

  lemma FinishFitsOnce(asked: seq<Candidate>, req: Request, last: bool, a: Finish, b: Finish)
    requires FinishFits(asked, req, last, a) && FinishFits(asked, req, last, b)
    ensures a == b
  {
  }

  /** The last reply holds no answer, and reads differently from the first miss. */
  ghost predicate MissDiffers(asked: seq<Candidate>, req: Request) {
    && asked != [] && NoAnswer(asked[|asked| - 1], req) && asked[|asked| - 1].reply.Response?
    && exists x :: FirstMissIn(asked, req, x) && asked[x].reply.body != asked[|asked| - 1].reply.body
  }

  /** Cut short or not matters exactly when the last reply and the first miss differ. */
  lemma CutShortMatters(asked: seq<Candidate>, req: Request, a: Finish, b: Finish)
    requires FinishFits(asked, req, true, a) && FinishFits(asked, req, false, b)
    requires asked != [] && (NoAnswer(asked[|asked| - 1], req) ==>
               MissReply(asked[|asked| - 1], req) || RetryableErrorReply(asked[|asked| - 1], req))
    ensures a == b <==> !MissDiffers(asked, req)
  {
    var n := |asked| - 1;
    if NoAnswer(asked[n], req) {
      if x :| FirstMissIn(asked, req, x) {
        assert forall y | FirstMissIn(asked, req, y) :: y == x;
      } else {
        NoFirstMiss(asked, req, n);
        assert LastRetryableIn(asked, req, n);
      }
    }
  }

  lemma {:induction false} NoFirstMiss(asked: seq<Candidate>, req: Request, n: nat)
    requires n < |asked| && !(exists x :: FirstMissIn(asked, req, x))
    ensures forall y | 0 <= y <= n :: !MissReply(asked[y], req)
  {
    if n > 0 {
      NoFirstMiss(asked, req, n - 1);
    }
    assert !FirstMissIn(asked, req, n);
  }

  lemma CutShortShape(cs: seq<Candidate>, req: Request)
    requires CutShort(cs, req)
    ensures var asked := AskedBy(cs, req);
            asked != [] && (MissReply(asked[|asked| - 1], req) || RetryableErrorReply(asked[|asked| - 1], req))
  {
    RunAsksReference(cs, req);
    CutShortIsLastWord(cs, req);
    var f := Run(cs, req).log.forwards;
    assert Pick(cs, f)[|f| - 1] == cs[f[|f| - 1]];
  }

  lemma FinishByCut(asked: seq<Candidate>, req: Request, cut: bool, cut': bool, a: Finish, b: Finish)
    requires FinishFits(asked, req, cut, a) && FinishFits(asked, req, cut', b)
    requires cut || cut' ==>
      asked != [] && (MissReply(asked[|asked| - 1], req) || RetryableErrorReply(asked[|asked| - 1], req))
    ensures a != b <==> cut != cut' && MissDiffers(asked, req)
  {
    if cut == cut' {
      FinishFitsOnce(asked, req, cut, a, b);
    } else if cut {
      CutShortMatters(asked, req, a, b);
    } else {
      CutShortMatters(asked, req, b, a);
    }
  }

  lemma CutShortAsked(cs: seq<Candidate>, req: Request, asked: seq<Candidate>)
    requires asked == AskedBy(cs, req)
    ensures CutShort(cs, req) ==>
      asked != [] && (MissReply(asked[|asked| - 1], req) || RetryableErrorReply(asked[|asked| - 1], req))
  {
    if CutShort(cs, req) {
      CutShortShape(cs, req);
    }
  }

  /**
    * Providers that cannot be asked change the response exactly when they leave one list with an
    * attempt, or a full-history provider, to spare after its last reply and the other without,
    * and that reply reads differently from the history miss remembered before it.
    */
  lemma UnaskableChangeResponseExactly(cs: seq<Candidate>, cs': seq<Candidate>, req: Request)
    requires Askable(cs, req) == Askable(cs', req)
    ensures Run(cs, req).finishes != Run(cs', req).finishes
       <==> CutShort(cs, req) != CutShort(cs', req) && MissDiffers(AskedBy(cs, req), req)
  {
    var asked := AskedBy(cs, req);
    UnaskableDoNotMatter(cs, cs', req);
    FinishOfRun(cs, req);
    FinishOfRun(cs', req);
    CutShortAsked(cs, req, asked);
    CutShortAsked(cs', req, asked);
    var a, b := Run(cs, req).finishes, Run(cs', req).finishes;
    FinishByCut(asked, req, CutShort(cs, req), CutShort(cs', req), a[0], b[0]);
    assert a == [a[0]] && b == [b[0]];
  }

  /**
    * The first miss is meant to be returned if no full-history provider answers. When nobody
    * answers, it is exactly unless the run is cut short on a reply that reads differently.
    */
  lemma FirstMissReturnedExactly(cs: seq<Candidate>, req: Request, first: nat)
    requires FirstMissIn(AskedBy(cs, req), req, first)
    requires NoAnswer(AskedBy(cs, req)[|AskedBy(cs, req)| - 1], req)
    ensures Run(cs, req).finishes == [Finish(200, AskedBy(cs, req)[first].reply.body, None)]
       <==> !(CutShort(cs, req) && MissDiffers(AskedBy(cs, req), req))
  {
    var asked := AskedBy(cs, req);
    FinishOfRun(cs, req);
    CutShortAsked(cs, req, asked);
    var remembered := Finish(200, asked[first].reply.body, None);
    FinishByCut(asked, req, CutShort(cs, req), false, Run(cs, req).finishes[0], remembered);
    assert Run(cs, req).finishes == [Run(cs, req).finishes[0]];
  }

  /** Outside history lookups there are no misses, so the response never changes. */
  lemma UnaskableDoNotChangeResponse(cs: seq<Candidate>, cs': seq<Candidate>, req: Request)
    requires Askable(cs, req) == Askable(cs', req)
    requires !req.historyLookup
    ensures Run(cs, req).finishes == Run(cs', req).finishes
  {
    UnaskableChangeResponseExactly(cs, cs', req);
  }

  const MISS_BODY := Body("null result", Absent, false)
  const UNHEALTHY_BODY := Body("node unhealthy", Present(Some(-32005)), false)
  const SHALLOW := Candidate("a", Some(Provider(Recent, false)), true, true, Response(200, MISS_BODY))
  const DEEP := Candidate("b", Some(Provider(Full, false)), true, true, Response(200, UNHEALTHY_BODY))
  const CAPPED := Candidate("c", Some(Provider(Full, true)), true, false, TransportError)

  /**
    * In a history lookup it can change: a shed provider at the end of the list leaves an
    * attempt over, so the remembered miss is returned instead of the last provider's error.
    */
  lemma UnaskableCanChangeMiss()
    ensures var req := Request(2, true, true);
            && Unaskable(CAPPED, req)
            && Run([SHALLOW, DEEP, CAPPED], req).finishes == [Finish(200, MISS_BODY, None)]
            && Run([SHALLOW, DEEP], req).finishes == [Finish(200, UNHEALTHY_BODY, None)]
  {
    var req := Request(2, true, true);
    var long, short := [SHALLOW, DEEP, CAPPED], [SHALLOW, DEEP];
    assert IsFull(long[1..][0]) && IsFull(short[1..][0]);
    var l1 := Loop(1, Some(("a", HistoryMissed)), Some(MISS_BODY), None);
    var log1 := Append(EMPTY, AskLog(SHALLOW, 0, req, INIT));
    assert RunFrom(long, 0, req, 3, INIT, EMPTY) == RunFrom(long, 1, req, 3, l1, log1);
    assert RunFrom(short, 0, req, 2, INIT, EMPTY) == RunFrom(short, 1, req, 2, l1, log1);
    var log2 := Append(log1, AskLog(DEEP, 1, req, l1));
    var l2 := Loop(2, Some(("b", RetryableRpc)), Some(MISS_BODY), Some(UNHEALTHY_BODY));
    assert RunFrom(long, 1, req, 3, l1, log1) == RunFrom(long, 2, req, 3, l2, log2);
    var log3 := Append(log2, SkipLog(CAPPED, req, l2));
    assert RunFrom(long, 2, req, 3, l2, log2) == RunFrom(long, 3, req, 3, l2, log3);
  }

  /** Nobody answers, and yet the last reply comes back instead of the first miss. */
  lemma FirstMissNotReturned()
    ensures var req := Request(2, true, true);
            && MissReply(SHALLOW, req) && NoAnswer(DEEP, req)
            && Run([SHALLOW, DEEP], req).finishes == [Finish(200, UNHEALTHY_BODY, None)]
            && UNHEALTHY_BODY != MISS_BODY
  {
    UnaskableCanChangeMiss();
  }
}
