/**
  * The queue and the analyzer behind it as one system (src/historical.rs): the worker analyzes each
  * job it finishes, and each flush reports the counters it swapped out together with the windows.
  * A run is any interleaving of offers, sends, drops, the worker's steps, expirations and flushes.
  */
module Pipeline {
  import opened Historical
  import opened Analyzer
  import Runs = AnalyzerRuns
  import opened AnalyticsQueue

  /** State limits of the analyzer, and the limits of the queue. */
  datatype Limits = Limits(queue: Config, capacity: nat, ttl: nat)

  datatype System = System(queue: State, world: Runs.World)

  datatype Move = Queued(step: Step) | Expire(now: Time)

  predicate Possible(s: System, move: Move) {
    move.Queued? ==> Enabled(s.queue, move.step)
  }

  ghost function Moved(s: System, move: Move): System
    requires Possible(s, move)
  {
    match move
    case Expire(now) => s.(world := Runs.Apply(s.world, Runs.Expire(now)))
    case Queued(step) =>
      var queue := Next(s.queue, step);
      match step
      case Finish => System(queue, s.world.(core := ProcessedJob(s.world.core, s.queue.working.value.job)))
      case Report => System(queue, Runs.Apply(s.world, Runs.Flush(s.queue.swapped)))
      case _ => s.(queue := queue)
  }

  ghost predicate IsSystemRun(lim: Limits, moves: seq<Move>)
    decreases |moves|, 0
  {
    moves == [] ||
    (IsSystemRun(lim, moves[..|moves| - 1])
     && Possible(SystemAfter(lim, moves[..|moves| - 1]), moves[|moves| - 1]))
  }

  ghost function SystemAfter(lim: Limits, moves: seq<Move>): System
    requires IsSystemRun(lim, moves)
    decreases |moves|, 1
  {
    if moves == [] then System(Start(lim.queue), Runs.Start(lim.capacity, lim.ttl))
    else Moved(SystemAfter(lim, moves[..|moves| - 1]), moves[|moves| - 1])
  }

  // ----- the run of each half

  ghost function QueueSteps(moves: seq<Move>): seq<Step> {
    if moves == [] then []
    else QueueSteps(moves[..|moves| - 1]) + (if moves[|moves| - 1].Queued? then [moves[|moves| - 1].step] else [])
  }

  /** What a move makes the analyzer do. */
  ghost function AnalyzerSteps(s: System, move: Move): seq<Runs.Step>
    requires Possible(s, move)
  {
    match move
    case Expire(now) => [Runs.Expire(now)]
    case Queued(Finish) => Runs.StepsOf(s.queue.working.value.job)
    case Queued(Report) => [Runs.Flush(s.queue.swapped)]
    case _ => []
  }

  ghost function AnalyzerRun(lim: Limits, moves: seq<Move>): seq<Runs.Step>
    requires IsSystemRun(lim, moves)
    decreases |moves|
  {
    if moves == [] then []
    else
      var before := moves[..|moves| - 1];
      AnalyzerRun(lim, before) + AnalyzerSteps(SystemAfter(lim, before), moves[|moves| - 1])
  }

  lemma {:induction false} QueueHalf(lim: Limits, moves: seq<Move>)
    requires IsSystemRun(lim, moves)
    ensures IsRun(lim.queue, QueueSteps(moves))
    ensures After(lim.queue, QueueSteps(moves)) == SystemAfter(lim, moves).queue
    decreases |moves|
  {
    if moves != [] {
      var before, move := moves[..|moves| - 1], moves[|moves| - 1];
      QueueHalf(lim, before);
      if move.Queued? {
        Extend(lim.queue, QueueSteps(before), move.step);
      } else {
        assert QueueSteps(moves) == QueueSteps(before);
      }
    }
  }

  lemma {:induction false} RunConcat(w: Runs.World, a: seq<Runs.Step>, b: seq<Runs.Step>)
    ensures Runs.Run(w, a + b) == Runs.Run(Runs.Run(w, a), b)
    ensures Runs.Calls(a + b) == Runs.Calls(a) + Runs.Calls(b)
    ensures Runs.Dropped(a + b) == Runs.Dropped(a) + Runs.Dropped(b)
    decreases |b|
  {
    if b == [] {
      assert a + b == a;
    } else {
      assert (a + b)[..|a + b| - 1] == a + b[..|b| - 1];
      RunConcat(w, a, b[..|b| - 1]);
    }
  }

  /** Calls a batch recognises beyond its eligible count, in the jobs finished so far. */
  ghost function Excess(lim: Limits, moves: seq<Move>): nat
    requires IsSystemRun(lim, moves)
    decreases |moves|
  {
    if moves == [] then 0
    else
      var before := moves[..|moves| - 1];
      Excess(lim, before) + ExcessOf(SystemAfter(lim, before), moves[|moves| - 1])
  }

  ghost function ExcessOf(s: System, move: Move): nat
    requires Possible(s, move)
  {
    if move == Queued(Finish)
    then Runs.CountedCalls(s.queue.working.value.job.kind) - EligibleCalls(s.queue.working.value.job.kind)
    else 0
  }

  lemma SingleStep(w: Runs.World, step: Runs.Step)
    ensures Runs.Run(w, [step]) == Runs.Apply(w, step)
    ensures Runs.Calls([step]) == Runs.CallsOf(step) && Runs.Dropped([step]) == Runs.DroppedBy(step)
  {
    Runs.RunOne(w, step);
    assert [step][..0] == [];
  }

  lemma {:induction false} JobsDropNothing(job: Job)
    ensures Runs.Dropped(Runs.StepsOf(job)) == 0
  {
    var expire := Runs.Expire(job.at);
    assert Runs.Dropped([expire]) == 0 by {
      assert [expire][..0] == [];
    }
    if Runs.StepFor(job).Some? {
      assert [expire, Runs.StepFor(job).value][..1] == [expire];
    }
  }

  /** What one move does to the analyzer, and how many calls it counts or reports as dropped. */
  lemma MoveIsSteps(s: System, move: Move)
    requires Possible(s, move)
    ensures Moved(s, move).world == Runs.Run(s.world, AnalyzerSteps(s, move))
    ensures s.queue.processed + Runs.Calls(AnalyzerSteps(s, move))
         == Moved(s, move).queue.processed + ExcessOf(s, move)
    ensures s.queue.reported.droppedLogical + Runs.Dropped(AnalyzerSteps(s, move))
         == Moved(s, move).queue.reported.droppedLogical
  {
    match move {
      case Expire(now) => SingleStep(s.world, Runs.Expire(now));
      case Queued(Finish) =>
        var job := s.queue.working.value.job;
        Runs.JobIsRun(s.world, job);
        Runs.JobCountsItsCalls(job);
        JobsDropNothing(job);
      case Queued(Report) => SingleStep(s.world, Runs.Flush(s.queue.swapped));
      case _ =>
    }
  }

  /** The analyzer's half of a system run is a run of the analyzer, over exactly the calls processed and reported. */
  lemma {:induction false} AnalyzerHalf(lim: Limits, moves: seq<Move>)
    requires IsSystemRun(lim, moves)
    ensures var s, run := SystemAfter(lim, moves), AnalyzerRun(lim, moves);
      && s.world == Runs.Run(Runs.Start(lim.capacity, lim.ttl), run)
      && Runs.Calls(run) == s.queue.processed + Excess(lim, moves)
      && Runs.Dropped(run) == s.queue.reported.droppedLogical
    decreases |moves|
  {
    if moves != [] {
      var before, move := moves[..|moves| - 1], moves[|moves| - 1];
      var s := SystemAfter(lim, before);
      AnalyzerHalf(lim, before);
      MoveIsSteps(s, move);
      RunConcat(Runs.Start(lim.capacity, lim.ttl), AnalyzerRun(lim, before), AnalyzerSteps(s, move));
    }
  }

  // ----- every call, end to end

  /** Calls offered that no window or event counts yet. */
  ghost function Underway(s: State): nat {
    OverHolders(CallsIn, s) + Sum((d: Drop) => d.logical, s.uncounted)
    + s.counters.droppedLogical + s.swapped.droppedLogical
  }

  /**
    * End to end, in every interleaving: the logical calls counted in windows and sent events, and
    * those still under way, are exactly the calls offered, and any that a batch recognises
    * beyond its eligible count.
    */
  lemma EveryOfferedCallAccounted(lim: Limits, moves: seq<Move>)
    requires IsSystemRun(lim, moves)
    ensures var s := SystemAfter(lim, moves);
            Runs.Counted(Runs.Logical, s.world) + Underway(s.queue)
            == Offered(QueueSteps(moves)) + Excess(lim, moves)
  {
    var s := SystemAfter(lim, moves);
    QueueHalf(lim, moves);
    AnalyzerHalf(lim, moves);
    EveryCallCountedOnce(lim.queue, QueueSteps(moves));
    PlacesOfCalls(s.queue);
    CountedAreCalls(lim.capacity, lim.ttl, AnalyzerRun(lim, moves), s.world);
  }

  lemma PlacesOfCalls(s: State)
    ensures Whereabouts(s) == s.processed + s.reported.droppedLogical + Underway(s)
  {
  }

  lemma CountedAreCalls(capacity: nat, ttl: nat, run: seq<Runs.Step>, w: Runs.World)
    requires w == Runs.Run(Runs.Start(capacity, ttl), run)
    ensures Runs.Counted(Runs.Logical, w) == Runs.Calls(run) + Runs.Dropped(run)
  {
    Runs.RunConserves(capacity, ttl, run);
  }

  /** Once everything has drained and been reported, the windows and events count every call offered. */
  lemma DrainedSystemAccounts(lim: Limits, moves: seq<Move>)
    requires IsSystemRun(lim, moves) && Quiescent(SystemAfter(lim, moves).queue)
    ensures Runs.Counted(Runs.Logical, SystemAfter(lim, moves).world)
         == Offered(QueueSteps(moves)) + Excess(lim, moves)
  {
    EveryOfferedCallAccounted(lim, moves);
  }

  // ----- every drop, end to end

  ghost function SentReasons(r: Reason, es: seq<Event>): nat {
    if es == [] then 0 else CountOf(es[0].quality, r) + SentReasons(r, es[1..])
  }

  lemma {:induction false} SentReasonsAppend(r: Reason, a: seq<Event>, b: seq<Event>)
    ensures SentReasons(r, a + b) == SentReasons(r, a) + SentReasons(r, b)
  {
    if a == [] {
      assert a + b == b;
    } else {
      assert (a + b)[1..] == a[1..] + b;
      SentReasonsAppend(r, a[1..], b);
    }
  }

  lemma OneEventReasons(r: Reason, ws: Windows, i: nat, q: Quality, entries: nat, capacity: nat)
    requires i < 4
    ensures SentReasons(r, [EventFor(ws, i, q, entries, capacity)]) == if i == 3 then CountOf(q, r) else 0
  {
    var e := EventFor(ws, i, q, entries, capacity);
    assert [e][1..] == [];
  }

  /** A flush that has drops to report always sends the event that carries them. */
  lemma {:induction false} FlushSendsReasons(
      r: Reason, ws: Windows, i: nat, q: Quality, entries: nat, capacity: nat, sent: seq<Event>)
    requires i <= 4
    ensures SentReasons(r, FlushedFrom(ws, i, q, entries, capacity, sent).1)
         == SentReasons(r, sent) + (if i <= 3 then CountOf(q, r) else 0)
    decreases 4 - i
  {
    if i < 4 {
      if Flushes(ws, i, q) {
        var e := EventFor(ws, i, q, entries, capacity);
        OneEventReasons(r, ws, i, q, entries, capacity);
        SentReasonsAppend(r, sent, [e]);
        FlushSendsReasons(r, ws[i := ZERO_WINDOW], i + 1, q, entries, capacity, sent + [e]);
      } else {
        FlushSendsReasons(r, ws, i + 1, q, entries, capacity, sent);
      }
    }
  }

  lemma FlushReportsReasons(r: Reason, w: Runs.World, q: Quality)
    ensures SentReasons(r, Runs.Apply(w, Runs.Flush(q)).sent) == SentReasons(r, w.sent) + CountOf(q, r)
  {
    Runs.ApplyFlush(w, q);
    var first := FIRST;
    FlushSendsReasons(r, w.core.windows, first, q, |w.core.state|, w.core.capacity, []);
    SentReasonsAppend(r, w.sent, Runs.FlushOf(w.core, q).1);
  }

  lemma OnlyFlushesReport(s: System, move: Move)
    requires Possible(s, move) && move != Queued(Report)
    ensures Moved(s, move).queue.reported == s.queue.reported && Moved(s, move).world.sent == s.world.sent
  {
  }

  lemma MoveReportsReasons(r: Reason, s: System, move: Move)
    requires Possible(s, move)
    ensures SentReasons(r, Moved(s, move).world.sent) - SentReasons(r, s.world.sent)
         == CountOf(Moved(s, move).queue.reported, r) - CountOf(s.queue.reported, r)
  {
    if move == Queued(Report) {
      FlushReportsReasons(r, s.world, s.queue.swapped);
    } else {
      OnlyFlushesReport(s, move);
    }
  }

  lemma {:induction false} EventsCarryReported(lim: Limits, moves: seq<Move>, r: Reason)
    requires IsSystemRun(lim, moves)
    ensures SentReasons(r, SystemAfter(lim, moves).world.sent) == CountOf(SystemAfter(lim, moves).queue.reported, r)
    decreases |moves|
  {
    if moves != [] {
      EventsCarryReported(lim, moves[..|moves| - 1], r);
      MoveReportsReasons(r, SystemAfter(lim, moves[..|moves| - 1]), moves[|moves| - 1]);
    }
  }

  /**
    * In every interleaving, the drops reported under a reason by the events sent, and those still
    * on their way to one, are exactly the jobs dropped for that reason.
    */
  lemma EveryDropReportedOnce(lim: Limits, moves: seq<Move>, r: Reason)
    requires IsSystemRun(lim, moves)
    ensures IsRun(lim.queue, QueueSteps(moves))
    ensures var s := SystemAfter(lim, moves);
            SentReasons(r, s.world.sent) + CountOf(s.queue.swapped, r) + CountOf(s.queue.counters, r)
            + Sum(HasReason(r), s.queue.uncounted) + Sum(IsReason(r), s.queue.unclassified)
            == Drops(lim.queue, QueueSteps(moves), r)
  {
    QueueHalf(lim, moves);
    EventsCarryReported(lim, moves, r);
    EveryDropHasOneReason(lim.queue, QueueSteps(moves), r);
  }
}
