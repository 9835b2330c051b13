/**
  * The bounded queue in front of the getTransaction analyzer (src/historical.rs): byte
  * permits taken by `finish`, the channel, the worker, and the drop counters that a flush
  * swaps out. Requests run concurrently, so every atomic action is a step of its own and a
  * run is any interleaving of them.
  */
module AnalyticsQueue {
  import opened Common
  import opened Historical
  import opened Analyzer

  const UNIT: nat := 4096
  const U32_LIMIT: nat := 0x1_0000_0000

  datatype Config = Config(queueCapacity: nat, maxQueuedBytes: nat, maxJobBytes: nat)

  /** A finished request: what the analyzer will look at, and the bytes of request and response. */
  datatype Ticket = Ticket(job: Job, bytes: nat)

  function CallsIn(t: Ticket): nat {
    EligibleCalls(t.job.kind)
  }

  datatype Reason = QueueFull | ByteBudgetExhausted | OversizedJob

  datatype Drop = Drop(reason: Reason, logical: nat)

  function AddQuality(a: Quality, b: Quality): Quality {
    Quality(a.droppedLogical + b.droppedLogical, a.queueFull + b.queueFull, a.byteBudget + b.byteBudget,
            a.oversized + b.oversized, a.resets + b.resets)
  }

  function PermitCount(cfg: Config): nat {
    if cfg.maxQueuedBytes / UNIT >= 1 then cfg.maxQueuedBytes / UNIT else 1
  }

  function Units(job: Ticket): nat {
    var n := (job.bytes + UNIT - 1) / UNIT;
    if n >= 1 then n else 1
  }

  datatype State = State(
    cfg: Config,
    free: nat,                // byte permits left in the semaphore
    admitted: seq<Ticket>,       // hold permits, not yet in the channel
    queue: seq<Ticket>,          // in the channel
    working: Option<Ticket>,     // being analyzed
    uncounted: seq<Drop>,     // dropped, before the first counter is raised
    unclassified: seq<Reason>,// dropped, between the two counters
    counters: Quality,        // the shared atomics
    swapped: Quality,         // taken by a flush in progress
    reported: Quality,        // sent with earlier flushes
    processed: nat)           // calls the analyzer has counted

  datatype Step =
    | Offer(job: Ticket)                 // finish, up to acquiring permits
    | Send(i: nat, accepted: bool)    // try_send; refused when the channel is full or closed
    | CountDrop(i: nat)
    | ClassifyDrop(i: nat)
    | Take
    | Finish
    | SwapLogical
    | SwapReason(reason: Reason)
    | SwapResets
    | Report

  // ----- transitions

  function RemoveAt<T>(s: seq<T>, i: nat): seq<T>
    requires i < |s|
  {
    s[..i] + s[i + 1..]
  }

  function CountOf(q: Quality, r: Reason): nat {
    match r
    case QueueFull => q.queueFull
    case ByteBudgetExhausted => q.byteBudget
    case OversizedJob => q.oversized
  }

  function WithCount(q: Quality, r: Reason, n: nat): Quality {
    match r
    case QueueFull => q.(queueFull := n)
    case ByteBudgetExhausted => q.(byteBudget := n)
    case OversizedJob => q.(oversized := n)
  }

  predicate Enabled(s: State, step: Step) {
    match step
    case Send(i, accepted) => i < |s.admitted| && (accepted ==> |s.queue| < s.cfg.queueCapacity)
    case CountDrop(i) => i < |s.uncounted|
    case ClassifyDrop(i) => i < |s.unclassified|
    case Take => s.working.None? && s.queue != []
    case Finish => s.working.Some?
    case _ => true
  }

  /** Why an offered job is refused permits, if it is. */
  function Refusal(s: State, job: Ticket): Option<Reason> {
    if job.bytes > s.cfg.maxJobBytes then Some(OversizedJob)
    else if Units(job) >= U32_LIMIT || Units(job) > s.free then Some(ByteBudgetExhausted)
    else None
  }

  function Next(s: State, step: Step): State
    requires Enabled(s, step)
  {
    match step
    case Offer(job) =>
      if CallsIn(job) == 0 then s
      else if Refusal(s, job).Some? then s.(uncounted := s.uncounted + [Drop(Refusal(s, job).value, CallsIn(job))])
      else s.(free := s.free - Units(job), admitted := s.admitted + [job])
    case Send(i, accepted) =>
      var job := s.admitted[i];
      var s := s.(admitted := RemoveAt(s.admitted, i));
      if accepted then s.(queue := s.queue + [job])
      else s.(free := s.free + Units(job), uncounted := s.uncounted + [Drop(QueueFull, CallsIn(job))])
    case CountDrop(i) =>
      var drop := s.uncounted[i];
      s.(uncounted := RemoveAt(s.uncounted, i),
         unclassified := s.unclassified + [drop.reason],
         counters := s.counters.(droppedLogical := s.counters.droppedLogical + drop.logical))
    case ClassifyDrop(i) =>
      var r := s.unclassified[i];
      s.(unclassified := RemoveAt(s.unclassified, i),
         counters := WithCount(s.counters, r, CountOf(s.counters, r) + 1))
    case Take => s.(working := Some(s.queue[0]), queue := s.queue[1..])
    case Finish =>
      var job := s.working.value;
      s.(working := None, free := s.free + Units(job), processed := s.processed + CallsIn(job))
    case SwapLogical =>
      s.(swapped := s.swapped.(droppedLogical := s.swapped.droppedLogical + s.counters.droppedLogical),
         counters := s.counters.(droppedLogical := 0))
    case SwapReason(r) =>
      s.(swapped := WithCount(s.swapped, r, CountOf(s.swapped, r) + CountOf(s.counters, r)),
         counters := WithCount(s.counters, r, 0))
    case SwapResets =>
      s.(swapped := s.swapped.(resets := s.swapped.resets + s.counters.resets),
         counters := s.counters.(resets := 0))
    case Report =>
      s.(reported := AddQuality(s.reported, s.swapped), swapped := NO_QUALITY)
  }

  /** A restart counts as one reset of the analyzer's state. */
  function Start(cfg: Config): State {
    State(cfg, PermitCount(cfg), [], [], None, [], [], NO_QUALITY.(resets := 1), NO_QUALITY, NO_QUALITY, 0)
  }

  /** Every step is enabled when it is taken. */
  ghost predicate IsRun(cfg: Config, steps: seq<Step>)
    decreases |steps|, 0
  {
    steps == [] ||
    (IsRun(cfg, steps[..|steps| - 1])
     && Enabled(After(cfg, steps[..|steps| - 1]), steps[|steps| - 1]))
  }

  ghost function After(cfg: Config, steps: seq<Step>): State
    requires IsRun(cfg, steps)
    decreases |steps|, 1
  {
    if steps == [] then Start(cfg)
    else Next(After(cfg, steps[..|steps| - 1]), steps[|steps| - 1])
  }

  // ----- sums

  ghost function Sum<T(!new)>(f: T -> nat, s: seq<T>): nat {
    if s == [] then 0 else f(s[0]) + Sum(f, s[1..])
  }

  lemma {:induction false} SumConcat<T(!new)>(f: T -> nat, a: seq<T>, b: seq<T>)
    ensures Sum(f, a + b) == Sum(f, a) + Sum(f, b)
  {
    if a == [] {
      assert a + b == b;
    } else {
      assert (a + b)[1..] == a[1..] + b;
      SumConcat(f, a[1..], b);
    }
  }

  lemma SumRemove<T(!new)>(f: T -> nat, s: seq<T>, i: nat)
    requires i < |s|
    ensures Sum(f, RemoveAt(s, i)) + f(s[i]) == Sum(f, s)
  {
    SumConcat(f, s[..i], s[i + 1..]);
    SumConcat(f, s[..i], s[i..]);
    assert s == s[..i] + s[i..] && s[i..][1..] == s[i + 1..];
  }

  lemma SumSnoc<T(!new)>(f: T -> nat, s: seq<T>, x: T)
    ensures Sum(f, s + [x]) == Sum(f, s) + f(x)
  {
    SumConcat(f, s, [x]);
    assert Sum(f, [x]) == f(x) + Sum(f, [x][1..]) == f(x);
  }

  /** Jobs that hold permits. */
  ghost function Holders(s: State): seq<Ticket> {
    s.admitted + s.queue + (if s.working.Some? then [s.working.value] else [])
  }

  ghost function OverHolders(f: Ticket -> nat, s: State): nat {
    Sum(f, s.admitted) + Sum(f, s.queue) + (if s.working.Some? then f(s.working.value) else 0)
  }

  // ----- the byte budget

  ghost predicate PermitsConserved(s: State) {
    s.free + OverHolders(Units, s) == PermitCount(s.cfg)
  }

  lemma StepKeepsPermits(s: State, step: Step)
    requires Enabled(s, step) && PermitsConserved(s)
    ensures PermitsConserved(Next(s, step)) && Next(s, step).cfg == s.cfg
  {
    match step {
      case Offer(job) => SumSnoc(Units, s.admitted, job);
      case Send(i, accepted) =>
        SumRemove(Units, s.admitted, i);
        SumSnoc(Units, s.queue, s.admitted[i]);
      case _ =>
    }
  }

  /** In every interleaving, held units and free permits add up to the permit count. */
  lemma {:induction false} PermitsAlwaysConserved(cfg: Config, steps: seq<Step>)
    requires IsRun(cfg, steps)
    ensures PermitsConserved(After(cfg, steps)) && After(cfg, steps).cfg == cfg
    decreases |steps|
  {
    if steps != [] {
      PermitsAlwaysConserved(cfg, steps[..|steps| - 1]);
      StepKeepsPermits(After(cfg, steps[..|steps| - 1]), steps[|steps| - 1]);
    }
  }

  lemma {:induction false} BytesWithinUnits(jobs: seq<Ticket>)
    ensures Sum((t: Ticket) => t.bytes, jobs) <= UNIT * Sum(Units, jobs)
  {
    if jobs != [] {
      BytesWithinUnits(jobs[1..]);
    }
  }

  /** So the bytes in flight never exceed the configured budget. */
  lemma BytesInFlightBounded(cfg: Config, steps: seq<Step>)
    requires IsRun(cfg, steps)
    requires cfg.maxQueuedBytes >= UNIT
    ensures Sum((t: Ticket) => t.bytes, Holders(After(cfg, steps))) <= cfg.maxQueuedBytes
  {
    var s := After(cfg, steps);
    PermitsAlwaysConserved(cfg, steps);
    BytesWithinUnits(Holders(s));
    var last := if s.working.Some? then [s.working.value] else [];
    SumConcat(Units, s.admitted + s.queue, last);
    SumConcat(Units, s.admitted, s.queue);
    assert s.working.Some? ==> last[1..] == [];
  }

  // ----- every call is counted once

  ghost function Offered(steps: seq<Step>): nat {
    if steps == [] then 0
    else Offered(steps[..|steps| - 1])
         + (if steps[|steps| - 1].Offer? then CallsIn(steps[|steps| - 1].job) else 0)
  }

  /** Where the calls offered so far are. */
  ghost function Whereabouts(s: State): nat {
    s.processed
    + OverHolders(CallsIn, s)
    + Sum((d: Drop) => d.logical, s.uncounted)
    + s.counters.droppedLogical + s.swapped.droppedLogical + s.reported.droppedLogical
  }

  lemma StepMovesCalls(s: State, step: Step)
    requires Enabled(s, step)
    ensures Whereabouts(Next(s, step)) == Whereabouts(s) + (if step.Offer? then CallsIn(step.job) else 0)
  {
    var lost := (d: Drop) => d.logical;
    match step {
      case Offer(job) =>
        SumSnoc(CallsIn, s.admitted, job);
        if Refusal(s, job).Some? {
          SumSnoc(lost, s.uncounted, Drop(Refusal(s, job).value, CallsIn(job)));
        }
      case Send(i, accepted) =>
        SumRemove(CallsIn, s.admitted, i);
        SumSnoc(CallsIn, s.queue, s.admitted[i]);
        SumSnoc(lost, s.uncounted, Drop(QueueFull, CallsIn(s.admitted[i])));
      case CountDrop(i) => SumRemove(lost, s.uncounted, i);
      case _ =>
    }
  }

  /** Every eligible call offered is processed, in flight, or dropped and counted: exactly one of these. */
  lemma {:induction false} EveryCallCountedOnce(cfg: Config, steps: seq<Step>)
    requires IsRun(cfg, steps)
    ensures Whereabouts(After(cfg, steps)) == Offered(steps)
    decreases |steps|
  {
    if steps != [] {
      EveryCallCountedOnce(cfg, steps[..|steps| - 1]);
      StepMovesCalls(After(cfg, steps[..|steps| - 1]), steps[|steps| - 1]);
    }
  }

  /** Nothing is held, queued, being analyzed or waiting to be counted or reported. */
  ghost predicate Quiescent(s: State) {
    s.admitted == [] && s.queue == [] && s.working.None? && s.uncounted == [] && s.unclassified == []
    && s.counters == NO_QUALITY && s.swapped == NO_QUALITY
  }

  /** Once everything has drained, each offered call was either analyzed or reported as dropped. */
  lemma DrainedRunAccounts(cfg: Config, steps: seq<Step>)
    requires IsRun(cfg, steps) && Quiescent(After(cfg, steps))
    ensures Offered(steps) == After(cfg, steps).processed + After(cfg, steps).reported.droppedLogical
    ensures After(cfg, steps).free == PermitCount(cfg)
  {
    EveryCallCountedOnce(cfg, steps);
    PermitsAlwaysConserved(cfg, steps);
  }

  // ----- and every run can drain

  ghost predicate IsProgress(step: Step) {
    step.Send? || step.CountDrop? || step.ClassifyDrop? || step.Take? || step.Finish?
  }

  ghost predicate IsFlush(step: Step) {
    step.SwapLogical? || step.SwapReason? || step.SwapResets? || step.Report?
  }

  /** How many steps are left before everything offered has been analyzed or counted as dropped. */
  ghost function Work(s: State): nat {
    3 * |s.admitted| + 2 * |s.queue| + (if s.working.Some? then 1 else 0) + 2 * |s.uncounted| + |s.unclassified|
  }

  /** Progress is never undone: only a new offer makes work, and every other step but a flush does one unit of it. */
  lemma StepsDoWork(s: State, step: Step)
    requires Enabled(s, step)
    ensures IsProgress(step) ==> Work(Next(s, step)) == Work(s) - 1
    ensures !IsProgress(step) && !step.Offer? ==> Work(Next(s, step)) == Work(s)
  {
  }

  /** Nobody waits for anybody forever: while work is left, some step of it can be taken. */
  lemma NeverStuck(s: State) returns (step: Step)
    requires Work(s) > 0
    ensures IsProgress(step) && Enabled(s, step)
  {
    step := if s.admitted != [] then Send(0, false)
            else if s.uncounted != [] then CountDrop(0)
            else if s.unclassified != [] then ClassifyDrop(0)
            else if s.working.Some? then Finish
            else Take;
  }

  lemma Extend(cfg: Config, steps: seq<Step>, step: Step)
    requires IsRun(cfg, steps) && Enabled(After(cfg, steps), step)
    ensures IsRun(cfg, steps + [step]) && After(cfg, steps + [step]) == Next(After(cfg, steps), step)
    ensures Offered(steps + [step]) == Offered(steps) + (if step.Offer? then CallsIn(step.job) else 0)
  {
    assert (steps + [step])[..|steps|] == steps;
  }

  /** One whole flush. */
  lemma FlushRun(cfg: Config, steps: seq<Step>) returns (full: seq<Step>)
    requires IsRun(cfg, steps)
    ensures steps <= full && IsRun(cfg, full) && Offered(full) == Offered(steps)
    ensures After(cfg, full).counters == NO_QUALITY && After(cfg, full).swapped == NO_QUALITY
    ensures Work(After(cfg, full)) == Work(After(cfg, steps))
  {
    full := Flush(cfg, steps, SwapLogical);
    full := Flush(cfg, full, SwapReason(QueueFull));
    full := Flush(cfg, full, SwapReason(ByteBudgetExhausted));
    full := Flush(cfg, full, SwapReason(OversizedJob));
    full := Flush(cfg, full, SwapResets);
    full := Flush(cfg, full, Report);
  }

  /** What a step of a flush leaves of the shared counters. */
  ghost function Swapped(q: Quality, step: Step): Quality {
    if step.SwapLogical? then q.(droppedLogical := 0)
    else if step.SwapReason? then WithCount(q, step.reason, 0)
    else if step.SwapResets? then q.(resets := 0)
    else q
  }

  lemma Flush(cfg: Config, steps: seq<Step>, step: Step) returns (full: seq<Step>)
    requires IsRun(cfg, steps) && IsFlush(step)
    ensures steps <= full && IsRun(cfg, full) && Offered(full) == Offered(steps)
    ensures Work(After(cfg, full)) == Work(After(cfg, steps))
    ensures After(cfg, full).counters == Swapped(After(cfg, steps).counters, step)
    ensures step.Report? ==> After(cfg, full).swapped == NO_QUALITY
  {
    full := steps + [step];
    Extend(cfg, steps, step);
    StepsDoWork(After(cfg, steps), step);
  }

  /** From every reachable state the queue can drain, offering nothing new; what then holds is DrainedRunAccounts. */
  lemma {:induction false} EveryRunCanDrain(cfg: Config, steps: seq<Step>) returns (full: seq<Step>)
    requires IsRun(cfg, steps)
    ensures steps <= full && IsRun(cfg, full) && Quiescent(After(cfg, full)) && Offered(full) == Offered(steps)
    decreases Work(After(cfg, steps))
  {
    var s := After(cfg, steps);
    if Work(s) == 0 {
      full := FlushRun(cfg, steps);
    } else {
      var step := NeverStuck(s);
      StepsDoWork(s, step);
      Extend(cfg, steps, step);
      full := EveryRunCanDrain(cfg, steps + [step]);
    }
  }

  // ----- every drop has one reason

  /** The reason a step drops a job for, if it drops one. */
  ghost function DropBy(s: State, step: Step): Option<Reason>
    requires Enabled(s, step)
  {
    match step
    case Offer(job) =>
      if CallsIn(job) == 0 then None
      else if job.bytes > s.cfg.maxJobBytes then Some(OversizedJob)
      else if job.bytes > 4096 * s.free || s.free == 0 || job.bytes > 4096 * 0xFFFF_FFFF then Some(ByteBudgetExhausted)
      else None
    case Send(_, accepted) => if accepted then None else Some(QueueFull)
    case _ => None
  }

  ghost function Drops(cfg: Config, steps: seq<Step>, r: Reason): nat
    requires IsRun(cfg, steps)
  {
    if steps == [] then 0
    else
      var before := steps[..|steps| - 1];
      Drops(cfg, before, r) + (if DropBy(After(cfg, before), steps[|steps| - 1]) == Some(r) then 1 else 0)
  }

  ghost function IsReason(r: Reason): Reason -> nat {
    (x: Reason) => if x == r then 1 else 0
  }

  ghost function HasReason(r: Reason): Drop -> nat {
    (d: Drop) => if d.reason == r then 1 else 0
  }

  ghost function Classified(s: State, r: Reason): nat {
    Sum(HasReason(r), s.uncounted) + Sum(IsReason(r), s.unclassified)
    + CountOf(s.counters, r) + CountOf(s.swapped, r) + CountOf(s.reported, r)
  }

  /** Swapping and reporting only move counts around. */
  lemma FlushKeepsCounts(s: State, step: Step, r: Reason)
    requires IsFlush(step)
    ensures var s' := Next(s, step);
            CountOf(s'.counters, r) + CountOf(s'.swapped, r) + CountOf(s'.reported, r)
            == CountOf(s.counters, r) + CountOf(s.swapped, r) + CountOf(s.reported, r)
  {
  }

  /** Raising the counters moves a drop along, keeping its reason. */
  lemma CountingKeepsReason(s: State, step: Step, r: Reason)
    requires (step.CountDrop? || step.ClassifyDrop?) && Enabled(s, step)
    ensures Classified(Next(s, step), r) == Classified(s, r)
  {
    if step.CountDrop? {
      SumRemove(HasReason(r), s.uncounted, step.i);
      SumSnoc(IsReason(r), s.unclassified, s.uncounted[step.i].reason);
    } else {
      SumRemove(IsReason(r), s.unclassified, step.i);
    }
  }

  lemma OfferDrops(s: State, job: Ticket)
    requires CallsIn(job) > 0
    ensures DropBy(s, Offer(job)) == Refusal(s, job)
  {
    if s.free >= 1 {
      UnitsWithin(job, s.free);
    }
    UnitsWithin(job, 0xFFFF_FFFF);
  }

  lemma StepClassifies(s: State, step: Step, r: Reason)
    requires Enabled(s, step)
    ensures Classified(Next(s, step), r) == Classified(s, r) + (if DropBy(s, step) == Some(r) then 1 else 0)
  {
    match step {
      case Offer(job) =>
        if CallsIn(job) > 0 {
          OfferDrops(s, job);
        }
        if Refusal(s, job).Some? {
          SumSnoc(HasReason(r), s.uncounted, Drop(Refusal(s, job).value, CallsIn(job)));
        }
      case Send(i, accepted) => SumSnoc(HasReason(r), s.uncounted, Drop(QueueFull, CallsIn(s.admitted[i])));
      case CountDrop(i) => CountingKeepsReason(s, step, r);
      case ClassifyDrop(i) => CountingKeepsReason(s, step, r);
      case Take =>
      case Finish =>
      case _ => FlushKeepsCounts(s, step, r);
    }
  }

  /** In every interleaving with flushes, each dropped job raises exactly the counter of its own reason, once. */
  lemma {:induction false} EveryDropHasOneReason(cfg: Config, steps: seq<Step>, r: Reason)
    requires IsRun(cfg, steps)
    ensures Classified(After(cfg, steps), r) == Drops(cfg, steps, r)
    decreases |steps|
  {
    if steps != [] {
      EveryDropHasOneReason(cfg, steps[..|steps| - 1], r);
      StepClassifies(After(cfg, steps[..|steps| - 1]), steps[|steps| - 1], r);
    }
  }

  // ----- jobs that can never be admitted

  ghost predicate Idle(s: State) {
    s.free == PermitCount(s.cfg)
  }

  /**
    * Being within `max_job_bytes` does not mean a job fits: an idle queue refuses it exactly
    * when its 4096-byte units outnumber the permits.
    */
  lemma IdleQueueAdmits(s: State, job: Ticket)
    requires Idle(s) && job.bytes <= s.cfg.maxJobBytes && Units(job) < U32_LIMIT
    ensures Refusal(s, job).None? <==> Units(job) <= PermitCount(s.cfg)
  {
  }

  /** Every permitted job fits an idle queue exactly when one of the largest size does. */
  lemma AllPermittedJobsFit(s: State, largest: Ticket)
    requires Idle(s) && largest.bytes == s.cfg.maxJobBytes && Units(largest) < U32_LIMIT
    ensures (forall job: Ticket | job.bytes <= s.cfg.maxJobBytes :: Refusal(s, job).None?)
       <==> Units(largest) <= PermitCount(s.cfg)
  {
    if Units(largest) <= PermitCount(s.cfg) {
      forall job: Ticket | job.bytes <= s.cfg.maxJobBytes
        ensures Refusal(s, job).None?
      {
        assert Units(job) <= Units(largest);
      }
    } else {
      assert Refusal(s, largest).Some?;
    }
  }

  /** What an offer may find: some run, however it goes, leads to a state that admits the job. */
  ghost predicate EverAdmitted(cfg: Config, job: Ticket) {
    exists steps :: IsRun(cfg, steps) && Refusal(After(cfg, steps), job).None?
  }

  lemma UnitsWithin(job: Ticket, n: nat)
    requires n >= 1
    ensures Units(job) <= n <==> job.bytes <= 4096 * n
  {
  }

  /**
    * A job is admitted in some run exactly if it is within all three limits: the job limit, the whole
    * 4096-byte units of the budget, of which there is at least one, and 2^32 - 1 units. Otherwise
    * it is dropped in every run.
    */
  lemma EverAdmittedExactly(cfg: Config, job: Ticket)
    ensures EverAdmitted(cfg, job) <==>
      && job.bytes <= cfg.maxJobBytes
      && (job.bytes <= 4096 || job.bytes <= 4096 * (cfg.maxQueuedBytes / 4096))
      && job.bytes <= 4096 * 0xFFFF_FFFF
  {
    UnitsWithin(job, PermitCount(cfg));
    UnitsWithin(job, 0xFFFF_FFFF);
    if EverAdmitted(cfg, job) {
      var steps :| IsRun(cfg, steps) && Refusal(After(cfg, steps), job).None?;
      PermitsAlwaysConserved(cfg, steps);
    }
    if job.bytes <= cfg.maxJobBytes && Units(job) <= 0xFFFF_FFFF && Units(job) <= PermitCount(cfg) {
      assert IsRun(cfg, []) && Refusal(After(cfg, []), job).None?;
    }
  }

  /** A valid configuration under which a permitted job is dropped in every run, always for want of permits. */
  lemma PermittedJobNeverFits(steps: seq<Step>, job: Ticket)
    requires IsRun(Config(1, 8191, 8191), steps) && job.bytes == 8191
    ensures job.bytes <= After(Config(1, 8191, 8191), steps).cfg.maxJobBytes
    ensures Refusal(After(Config(1, 8191, 8191), steps), job) == Some(ByteBudgetExhausted)
  {
    PermitsAlwaysConserved(Config(1, 8191, 8191), steps);
  }

  // ----- the channel

  /** The channel never holds more than it was made for. */
  lemma {:induction false} QueueNeverOverflows(cfg: Config, steps: seq<Step>)
    requires IsRun(cfg, steps)
    ensures |After(cfg, steps).queue| <= cfg.queueCapacity && After(cfg, steps).cfg == cfg
    decreases |steps|
  {
    if steps != [] {
      QueueNeverOverflows(cfg, steps[..|steps| - 1]);
      ChannelStep(After(cfg, steps[..|steps| - 1]), steps[|steps| - 1]);
    }
  }

  ghost function SentBy(s: State, step: Step): seq<Ticket>
    requires Enabled(s, step)
  {
    if step.Send? && step.accepted then [s.admitted[step.i]] else []
  }

  ghost function TakenBy(s: State, step: Step): seq<Ticket>
    requires Enabled(s, step)
  {
    if step.Take? then [Next(s, step).working.value] else []
  }

  lemma ChannelStep(s: State, step: Step)
    requires Enabled(s, step)
    ensures Next(s, step).cfg == s.cfg
    ensures |s.queue| <= s.cfg.queueCapacity ==> |Next(s, step).queue| <= s.cfg.queueCapacity
    ensures s.queue + SentBy(s, step) == TakenBy(s, step) + Next(s, step).queue
  {
  }

  /** What was put into the channel, and what the worker took out of it, in order. */
  ghost function Sent(cfg: Config, steps: seq<Step>): seq<Ticket>
    requires IsRun(cfg, steps)
    decreases |steps|
  {
    if steps == [] then []
    else Sent(cfg, steps[..|steps| - 1]) + SentBy(After(cfg, steps[..|steps| - 1]), steps[|steps| - 1])
  }

  ghost function Taken(cfg: Config, steps: seq<Step>): seq<Ticket>
    requires IsRun(cfg, steps)
    decreases |steps|
  {
    if steps == [] then []
    else Taken(cfg, steps[..|steps| - 1]) + TakenBy(After(cfg, steps[..|steps| - 1]), steps[|steps| - 1])
  }

  lemma Requeue<T>(sent: seq<T>, taken: seq<T>, queue: seq<T>, s: seq<T>, t: seq<T>, queue': seq<T>)
    requires sent == taken + queue && queue + s == t + queue'
    ensures sent + s == (taken + t) + queue'
  {
    assert sent + s == taken + (queue + s);
    assert taken + (t + queue') == (taken + t) + queue';
  }

  /** First in, first out: in every run the jobs sent are those taken, then those still queued. */
  lemma {:induction false} JobsKeepTheirOrder(cfg: Config, steps: seq<Step>)
    requires IsRun(cfg, steps)
    ensures Sent(cfg, steps) == Taken(cfg, steps) + After(cfg, steps).queue
    decreases |steps|
  {
    if steps != [] {
      var before, step := steps[..|steps| - 1], steps[|steps| - 1];
      var s := After(cfg, before);
      JobsKeepTheirOrder(cfg, before);
      ChannelStep(s, step);
      Requeue(Sent(cfg, before), Taken(cfg, before), s.queue, SentBy(s, step), TakenBy(s, step), Next(s, step).queue);
    }
  }

  /** A request without eligible calls leaves no trace. */
  lemma IneligibleIgnored(s: State, job: Ticket)
    requires job.job.kind.NotHistorical? || (job.job.kind.Batch? && job.job.kind.eligible == 0)
    ensures Next(s, Offer(job)) == s
  {
  }

  lemma ResetStep(s: State, step: Step)
    requires Enabled(s, step)
    ensures var s' := Next(s, step);
            s'.counters.resets + s'.swapped.resets + s'.reported.resets
            == s.counters.resets + s.swapped.resets + s.reported.resets
  {
  }

  /** The one reset of a start is reported exactly once. */
  lemma {:induction false} ResetReportedOnce(cfg: Config, steps: seq<Step>)
    requires IsRun(cfg, steps)
    ensures var s := After(cfg, steps); s.counters.resets + s.swapped.resets + s.reported.resets == 1
    decreases |steps|
  {
    if steps != [] {
      ResetReportedOnce(cfg, steps[..|steps| - 1]);
      ResetStep(After(cfg, steps[..|steps| - 1]), steps[|steps| - 1]);
    }
  }
}
