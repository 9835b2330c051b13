/**
  * Whole runs of the getTransaction analyzer (src/historical.rs): what every sequence of
  * expirations, observations, errors, batches and flushes keeps true.
  */
module AnalyzerRuns {
  import opened Common
  import opened Historical
  import opened Analyzer

  // ----- expiry and eviction

  /** Unseen for the TTL. A clock that ran backwards counts as no time passed. */
  ghost predicate Stale(e: Entry, now: Time, ttl: nat) {
    ttl == 0 || now - e.lastSeen >= ttl
  }

  ghost function Survivors(state: States, now: Time, ttl: nat): States {
    map k | k in state && !Stale(state[k], now, ttl) :: state[k]
  }

  /** Stale entries last seen at commitment `c`; with `nulls`, only those still unresolved. */
  ghost predicate Counts(e: Entry, now: Time, ttl: nat, c: Commitment, nulls: bool) {
    Stale(e, now, ttl) && e.commitment == c && (nulls ==> e.lifecycle.NullSeen?)
  }

  ghost function StaleKeys(state: States, now: Time, ttl: nat, c: Commitment, nulls: bool): set<Fingerprint> {
    set k | k in state && Counts(state[k], now, ttl, c, nulls)
  }

  lemma StaleKeysRemove(state: States, now: Time, ttl: nat, c: Commitment, nulls: bool, k: Fingerprint)
    requires k in state
    ensures |StaleKeys(state, now, ttl, c, nulls)| == |StaleKeys(state - {k}, now, ttl, c, nulls)|
              + (if Counts(state[k], now, ttl, c, nulls) then 1 else 0)
  {
    var left := state - {k};
    assert forall j :: j in left <==> j in state && j != k;
    assert StaleKeys(left, now, ttl, c, nulls) == StaleKeys(state, now, ttl, c, nulls) - {k};
  }

  /** If the oldest entry is fresh, all are. */
  lemma FreshOldest(state: States, now: Time, ttl: nat)
    requires state.Keys != {} ==> !Stale(state[Oldest(state)], now, ttl)
    ensures forall k | k in state :: !Stale(state[k], now, ttl)
  {
    forall k | k in state
      ensures !Stale(state[k], now, ttl)
    {
      assert NotAfter(StampOf(state, Oldest(state)), StampOf(state, k));
    }
  }

  lemma StaleDoNotSurvive(state: States, now: Time, ttl: nat, k: Fingerprint)
    requires k in state && Stale(state[k], now, ttl)
    ensures Survivors(state, now, ttl) == Survivors(state - {k}, now, ttl)
  {
    var left := state - {k};
    assert forall j :: j in left <==> j in state && j != k;
  }

  lemma FreshSurvive(state: States, now: Time, ttl: nat)
    requires forall k | k in state :: !Stale(state[k], now, ttl)
    ensures Survivors(state, now, ttl) == state
  {
  }

  /** Expiry removes exactly the entries unseen for the TTL. */
  lemma {:induction false} ExpireRemovesExactlyStale(core: Core, now: Time)
    ensures Expired(core, now).state == Survivors(core.state, now, core.ttl)
    decreases |core.state|
  {
    if core.state.Keys != {} && Stale(core.state[Oldest(core.state)], now, core.ttl) {
      EvictedShrinks(core, Ttl);
      ExpireRemovesExactlyStale(Evicted(core, Ttl), now);
      StaleDoNotSurvive(core.state, now, core.ttl, Oldest(core.state));
    } else {
      FreshOldest(core.state, now, core.ttl);
      FreshSurvive(core.state, now, core.ttl);
    }
  }

  /** `w'` is `w` with `n` more expirations, `nulls` of them unresolved, and nothing else changed. */
  ghost predicate ExpiredBy(w: Shape, w': Shape, n: nat, nulls: nat) {
    w' == w.(ttlExpirations := w.ttlExpirations + n, nullTtlExpirations := w.nullTtlExpirations + nulls)
  }

  lemma EvictedWindow(core: Core, now: Time, c: Commitment)
    requires core.state.Keys != {} && Stale(core.state[Oldest(core.state)], now, core.ttl)
    ensures var e := core.state[Oldest(core.state)];
            ExpiredBy(core.windows[At(c)], Evicted(core, Ttl).windows[At(c)],
                      if Counts(e, now, core.ttl, c, false) then 1 else 0,
                      if Counts(e, now, core.ttl, c, true) then 1 else 0)
  {
  }

  lemma ExpiredByChain(u: Shape, v: Shape, w: Shape, n: nat, nulls: nat, n': nat, nulls': nat)
    requires ExpiredBy(u, v, n, nulls) && ExpiredBy(v, w, n', nulls')
    ensures ExpiredBy(u, w, n + n', nulls + nulls')
  {
  }

  /** Every expired entry is counted once, in the window it was last seen in, and nothing else changes. */
  lemma {:induction false} ExpireCountsExactlyStale(core: Core, now: Time, c: Commitment)
    ensures ExpiredBy(core.windows[At(c)], Expired(core, now).windows[At(c)],
                      |StaleKeys(core.state, now, core.ttl, c, false)|, |StaleKeys(core.state, now, core.ttl, c, true)|)
    decreases |core.state|
  {
    if core.state.Keys != {} && Stale(core.state[Oldest(core.state)], now, core.ttl) {
      var k := Oldest(core.state);
      var e, core' := core.state[k], Evicted(core, Ttl);
      EvictedShrinks(core, Ttl);
      ExpireCountsExactlyStale(core', now, c);
      StaleKeysRemove(core.state, now, core.ttl, c, false, k);
      StaleKeysRemove(core.state, now, core.ttl, c, true, k);
      EvictedWindow(core, now, c);
      ExpiredByChain(core.windows[At(c)], core'.windows[At(c)], Expired(core, now).windows[At(c)],
                     if Counts(e, now, core.ttl, c, false) then 1 else 0,
                     if Counts(e, now, core.ttl, c, true) then 1 else 0,
                     |StaleKeys(core'.state, now, core.ttl, c, false)|,
                     |StaleKeys(core'.state, now, core.ttl, c, true)|);
    } else {
      FreshOldest(core.state, now, core.ttl);
      assert StaleKeys(core.state, now, core.ttl, c, false) == {};
      assert StaleKeys(core.state, now, core.ttl, c, true) == {};
    }
  }

  /** Within capacity, a transition is a map update followed by at most one removal of the oldest. */
  lemma TransitionEvictsAtMostOne(core: Core, k: Fingerprint, c: Commitment, found: bool, now: Time)
    requires |core.state| <= core.capacity
    ensures var e := Entry(NextLifecycle(LifecycleIn(core.state, k), found, now), c, now);
            var updated := core.state[k := e];
            Transitioned(core, k, c, found, now).state
            == if |updated| > core.capacity then updated - {Oldest(updated)} else updated
    ensures |Transitioned(core, k, c, found, now).state| <= core.capacity
  {
    var e := Entry(NextLifecycle(LifecycleIn(core.state, k), found, now), c, now);
    var updated := core.state[k := e];
    assert updated.Keys == core.state.Keys + {k};
    var w := CountTransition(core.windows[At(c)], TransitionOf(LifecycleIn(core.state, k), found, now));
    var core' := core.(state := updated, windows := Put(core.windows, c, w));
    if |updated| > core.capacity {
      EvictedShrinks(core', Capacity);
      assert Trimmed(core') == Trimmed(Evicted(core', Capacity)) == Evicted(core', Capacity);
    }
  }

  /** The one removed is counted as a capacity eviction, in the window it was last seen in, and nobody else is. */
  lemma CapacityEvictionCounted(core: Core, k: Fingerprint, c: Commitment, found: bool, now: Time, d: Commitment)
    requires |core.state| <= core.capacity
    ensures var e := Entry(NextLifecycle(LifecycleIn(core.state, k), found, now), c, now);
            var updated := core.state[k := e];
            var evicted := |updated| > core.capacity && updated[Oldest(updated)].commitment == d;
            var unresolved := evicted && updated[Oldest(updated)].lifecycle.NullSeen?;
            OverCapacityBy(core.windows[At(d)], Transitioned(core, k, c, found, now).windows[At(d)],
                           if evicted then 1 else 0, if unresolved then 1 else 0)
  {
    var e := Entry(NextLifecycle(LifecycleIn(core.state, k), found, now), c, now);
    var updated := core.state[k := e];
    UpdateSize(core.state, k, e);
    var t := TransitionOf(LifecycleIn(core.state, k), found, now);
    var w := CountTransition(core.windows[At(c)], t);
    var core' := core.(state := updated, windows := Put(core.windows, c, w));
    TransitionEvictsNobody(core.windows[At(c)], t);
    PutAt(core.windows, c, w, d);
    TrimCounted(core', d);
  }

  /** `n` capacity evictions more, `nulls` of them unresolved, and no expirations. */
  ghost predicate OverCapacityBy(w: Shape, w': Shape, n: nat, nulls: nat) {
    && w'.capacityEvictions == w.capacityEvictions + n && w'.nullCapacityEvictions == w.nullCapacityEvictions + nulls
    && w'.ttlExpirations == w.ttlExpirations && w'.nullTtlExpirations == w.nullTtlExpirations
  }

  lemma TransitionEvictsNobody(w: Shape, t: Transition)
    ensures OverCapacityBy(w, CountTransition(w, t), 0, 0)
  {
  }

  lemma PutAt(ws: Windows, c: Commitment, w: Shape, d: Commitment)
    ensures Put(ws, c, w)[At(d)] == if d == c then w else ws[At(d)]
  {
  }

  lemma TrimCounted(core: Core, d: Commitment)
    requires |core.state| <= core.capacity + 1
    ensures var evicted := |core.state| > core.capacity && core.state[Oldest(core.state)].commitment == d;
            var unresolved := evicted && core.state[Oldest(core.state)].lifecycle.NullSeen?;
            OverCapacityBy(core.windows[At(d)], Trimmed(core).windows[At(d)],
                           if evicted then 1 else 0, if unresolved then 1 else 0)
  {
    if |core.state| > core.capacity {
      assert core.state.Keys != {};
      EvictedShrinks(core, Capacity);
      assert Trimmed(core) == Trimmed(Evicted(core, Capacity)) == Evicted(core, Capacity);
      var e := core.state[Oldest(core.state)];
      var w := CountEviction(core.windows[At(e.commitment)], Capacity, e.lifecycle);
      PutAt(core.windows, e.commitment, w, d);
    }
  }

  /**
    * The key just observed can be the one evicted, when timestamps tie or run backwards: it
    * survives exactly if it was resident, if there was room, or if some other entry precedes it.
    */
  lemma ObservedKeySurvives(core: Core, k: Fingerprint, c: Commitment, found: bool, now: Time)
    requires |core.state| <= core.capacity
    ensures k in Transitioned(core, k, c, found, now).state <==>
      || k in core.state
      || |core.state| < core.capacity
      || (exists j :: j in core.state && NotAfter(StampOf(core.state, j), (now, k)))
  {
    TransitionEvictsAtMostOne(core, k, c, found, now);
    var e := Entry(NextLifecycle(LifecycleIn(core.state, k), found, now), c, now);
    UpdateSize(core.state, k, e);
    if k !in core.state {
      NewestIsOldest(core.state, k, e);
    }
  }

  lemma UpdateSize(state: States, k: Fingerprint, e: Entry)
    ensures |state[k := e]| == |state| + (if k in state then 0 else 1)
  {
    assert state[k := e].Keys == state.Keys + {k};
  }

  lemma NewestIsOldest(state: States, k: Fingerprint, e: Entry)
    requires k !in state
    ensures k in state[k := e].Keys
    ensures Oldest(state[k := e]) != k <==> exists j :: j in state && NotAfter(StampOf(state, j), (e.lastSeen, k))
  {
    var updated := state[k := e];
    assert forall j | j in state :: StampOf(updated, j) == StampOf(state, j);
    if j :| j in state && NotAfter(StampOf(state, j), (e.lastSeen, k)) {
      assert NotAfter(StampOf(updated, Oldest(updated)), StampOf(updated, j));
    } else {
      assert forall j | j in updated :: NotAfter(StampOf(updated, k), StampOf(updated, j));
      OldestUnique(updated, k);
    }
  }

  // ----- balanced windows

  ghost function Sum(h: seq<nat>): nat {
    if h == [] then 0 else h[0] + Sum(h[1..])
  }

  lemma {:induction false} BumpSum(h: seq<nat>, i: nat)
    requires i < |h|
    ensures Sum(Bump(h, i)) == Sum(h) + 1
  {
    if i == 0 {
      assert Bump(h, 0)[1..] == h[1..];
    } else {
      BumpSum(h[1..], i - 1);
      assert Bump(h, i)[1..] == Bump(h[1..], i - 1);
    }
  }

  lemma {:induction false} SumZero(h: seq<nat>)
    requires Sum(h) == 0
    ensures forall i | 0 <= i < |h| :: h[i] == 0
  {
    if h != [] {
      SumZero(h[1..]);
      assert forall i | 1 <= i < |h| :: h[i] == h[1..][i - 1];
    }
  }

  /** Every analyzed call has one outcome, every outcome one transition, every histogram its total. */
  ghost predicate Accounted(w: Shape) {
    && w.analyzed == w.found + w.nulls + w.rpcErrors + w.parseErrors
    && w.found == w.firstFound + w.nullToFound + w.foundRepeat
    && w.nulls == w.firstNull + w.nullRepeat + w.foundToNull
    && Sum(w.slotAge) + w.slotAgeUnknown + w.slotAgeTipBehind == w.found
    && Sum(w.pollsBeforeFound) == w.firstFound + w.nullToFound
    && w.pollsBeforeFound[0] == w.firstFound
    && Sum(w.timeToFound) == w.nullToFound
    && Sum(w.foundReuse) == w.foundRepeat
    && w.nullCapacityEvictions <= w.capacityEvictions
    && w.nullTtlExpirations <= w.ttlExpirations
  }

  /** A window between flushes: besides, every logical call was analyzed or part of a batch. */
  ghost predicate Balanced(w: Shape) {
    Accounted(w) && w.logical == w.analyzed + w.unsupportedBatch
  }

  lemma ZeroHistogram(h: seq<nat>)
    requires Sum(h) == 0
    ensures h == Zeros(|h|)
  {
    SumZero(h);
  }

  /** Skipping an empty window at a flush loses nothing: all its counters are zero. */
  lemma EmptyWindowIsZero(w: Shape)
    requires Balanced(w) && IsEmpty(w)
    ensures w == ZERO_WINDOW
  {
    ZeroHistogram(w.slotAge);
    ZeroHistogram(w.pollsBeforeFound);
    ZeroHistogram(w.timeToFound);
    ZeroHistogram(w.foundReuse);
  }

  lemma {:induction false} SumOfZeros(h: seq<nat>)
    requires forall i | 0 <= i < |h| :: h[i] == 0
    ensures Sum(h) == 0
  {
    if h != [] {
      SumOfZeros(h[1..]);
    }
  }

  lemma ZeroWindowBalanced(w: Shape)
    requires w == ZERO_WINDOW
    ensures Balanced(w)
  {
    SumOfZeros(w.slotAge);
    SumOfZeros(w.pollsBeforeFound);
    SumOfZeros(w.timeToFound);
    SumOfZeros(w.foundReuse);
  }

  lemma CountOutcomeSums(w: Shape, o: Observation)
    ensures var w' := CountOutcome(w, o);
            && Sum(w'.slotAge) + w'.slotAgeUnknown + w'.slotAgeTipBehind
               == Sum(w.slotAge) + w.slotAgeUnknown + w.slotAgeTipBehind + (if o.found then 1 else 0)
  {
    var tip := TipFor(o.tips, o.commitment);
    if o.found && o.slot.Some? && tip.Some? && o.slot.value <= tip.value {
      BumpSum(w.slotAge, SlotAgeBucket(tip.value - o.slot.value));
    }
  }

  lemma CountTransitionSums(w: Shape, t: Transition)
    ensures var w' := CountTransition(w, t);
            && Sum(w'.pollsBeforeFound) == Sum(w.pollsBeforeFound)
               + (if t.FirstObservationFound? || t.NullToFound? then 1 else 0)
            && Sum(w'.timeToFound) == Sum(w.timeToFound) + (if t.NullToFound? then 1 else 0)
            && Sum(w'.foundReuse) == Sum(w.foundReuse) + (if t.FoundRepeat? then 1 else 0)
  {
    match t {
      case FirstObservationFound => BumpSum(w.pollsBeforeFound, 0);
      case NullToFound(polls, elapsed) =>
        BumpSum(w.pollsBeforeFound, PollsBucket(polls));
        BumpSum(w.timeToFound, TimeToFoundBucket(elapsed));
      case FoundRepeat(elapsed) => BumpSum(w.foundReuse, ReuseBucket(elapsed));
      case _ =>
    }
  }

  /** Every key counted as null was polled at least once. */
  ghost predicate PollsPositive(state: States) {
    forall k | k in state && state[k].lifecycle.NullSeen? :: state[k].lifecycle.polls >= 1
  }

  /** A window whose last outcome has been counted but not yet its transition. */
  ghost predicate Pending(w: Shape, found: bool) {
    var f, n := if found then 1 else 0, if found then 0 else 1;
    && w.logical == w.analyzed + w.unsupportedBatch
    && w.analyzed == w.found + w.nulls + w.rpcErrors + w.parseErrors
    && w.found == w.firstFound + w.nullToFound + w.foundRepeat + f
    && w.nulls == w.firstNull + w.nullRepeat + w.foundToNull + n
    && Sum(w.slotAge) + w.slotAgeUnknown + w.slotAgeTipBehind == w.found
    && Sum(w.pollsBeforeFound) == w.firstFound + w.nullToFound
    && w.pollsBeforeFound[0] == w.firstFound
    && Sum(w.timeToFound) == w.nullToFound
    && Sum(w.foundReuse) == w.foundRepeat
    && w.nullCapacityEvictions <= w.capacityEvictions
    && w.nullTtlExpirations <= w.ttlExpirations
  }

  lemma OutcomeMakesPending(w: Shape, o: Observation)
    requires Balanced(w)
    ensures Pending(CountOutcome(w, o), o.found)
  {
    CountOutcomeSums(w, o);
  }

  lemma TransitionSettles(w: Shape, t: Transition, found: bool)
    requires Pending(w, found)
    requires found <==> t.FirstObservationFound? || t.NullToFound? || t.FoundRepeat?
    requires t.NullToFound? ==> t.polls >= 1
    ensures Balanced(CountTransition(w, t))
  {
    CountTransitionSums(w, t);
  }

  lemma ObservationKeepsBalance(w: Shape, o: Observation, previous: Option<Lifecycle>)
    requires Balanced(w)
    requires previous.Some? && previous.value.NullSeen? ==> previous.value.polls >= 1
    ensures Balanced(CountTransition(CountOutcome(w, o), TransitionOf(previous, o.found, o.at)))
  {
    OutcomeMakesPending(w, o);
    TransitionSettles(CountOutcome(w, o), TransitionOf(previous, o.found, o.at), o.found);
  }

  // ----- runs

  datatype Step =
    | Expire(now: Time)
    | Observe(o: Observation)
    | Error(commitment: Commitment, kind: ErrorKind)
    | BatchOf(calls: seq<Commitment>)
    | Flush(q: Quality)

  /** The analyzer and the events it has sent so far. */
  datatype World = World(core: Core, sent: seq<Event>)

  ghost function Start(capacity: nat, ttl: nat): World {
    World(Core(map[], ZERO_WINDOWS, capacity, ttl), [])
  }

  ghost function Apply(w: World, step: Step): World {
    match step
    case Expire(now) => w.(core := Expired(w.core, now))
    case Observe(o) => w.(core := Observed(w.core, o))
    case Error(c, kind) => w.(core := Errored(w.core, c, kind))
    case BatchOf(calls) => w.(core := Batched(w.core, calls))
    case Flush(q) => World(Flushed(w.core, q).0, w.sent + Flushed(w.core, q).1)
  }

  ghost function Run(w: World, steps: seq<Step>): World {
    if steps == [] then w
    else Apply(Run(w, steps[..|steps| - 1]), steps[|steps| - 1])
  }

  /** What a queued job does after its expiry. */
  ghost function StepFor(job: Job): Option<Step> {
    match job.kind
    case NotHistorical => None
    case Batch(recognised, eligible) => Some(BatchOf(BatchCalls(recognised, eligible)))
    case Single(BadJson, _, _, _) => Some(Error(Unknown, Parse))
    case Single(Request(c, None), _, _, _) => Some(Error(c, Parse))
    case Single(Request(c, Some(key)), status, response, tips) =>
      match ParseResponse(status, response)
      case RpcError => Some(Error(c, Rpc))
      case ParseError => Some(Error(c, Parse))
      case NullResult => Some(Observe(Observation(key, c, false, None, tips, job.at)))
      case FoundAt(slot) => Some(Observe(Observation(key, c, true, slot, tips, job.at)))
  }

  ghost function StepsOf(job: Job): seq<Step> {
    match StepFor(job)
    case None => [Expire(job.at)]
    case Some(step) => [Expire(job.at), step]
  }

  lemma RunOne(w: World, a: Step)
    ensures Run(w, [a]) == Apply(w, a)
  {
    assert [a][..0] == [] && Run(w, []) == w;
  }

  lemma RunTwo(w: World, a: Step, b: Step)
    ensures Run(w, [a, b]) == Apply(Apply(w, a), b)
  {
    RunOne(w, a);
    assert [a, b][..1] == [a];
  }

  lemma SingleIsStep(w: World, job: Job)
    requires job.kind.Single?
    ensures StepFor(job).Some?
    ensures Apply(w, StepFor(job).value) == w.(core := ProcessedSingle(w.core, job.kind, job.at))
  {
  }

  lemma NonSingleIsStep(w: World, job: Job)
    requires !job.kind.Single?
    ensures StepFor(job) == match job.kind
                            case NotHistorical => None
                            case Batch(recognised, eligible) => Some(BatchOf(BatchCalls(recognised, eligible)))
    ensures var expired := w.(core := Expired(w.core, job.at));
            w.(core := ProcessedJob(w.core, job)) ==
            if StepFor(job).None? then expired else Apply(expired, StepFor(job).value)
  {
  }

  /** So the theorems below are about every run of the worker loop. */
  lemma JobIsRun(w: World, job: Job)
    ensures Run(w, StepsOf(job)) == w.(core := ProcessedJob(w.core, job))
  {
    var expire := Expire(job.at);
    var next := StepFor(job);
    if job.kind.Single? {
      SingleIsStep(Apply(w, expire), job);
    } else {
      NonSingleIsStep(w, job);
    }
    if next.None? {
      RunOne(w, expire);
    } else {
      RunTwo(w, expire, next.value);
    }
  }

  // ----- a key evicted by its own observation

  const EARLY_KEY := Fingerprint(1, 1)
  const LATE_KEY := Fingerprint(2, 2)
  const SEEN_LATER := Observation(EARLY_KEY, Finalized, true, None, Tips(None, None, None), 2)
  const SEEN_EARLIER := Observation(LATE_KEY, Finalized, true, None, Tips(None, None, None), 1)

  lemma AfterFirstObservation(core: Core, o: Observation)
    requires core.state == map[] && core.capacity >= 1
    ensures var state := Observed(core, o).state;
            && state.Keys == {o.key} && state[o.key].lastSeen == o.at
            && Observed(core, o).capacity == core.capacity
  {
    ObservedIsTrimmed(core, o);
    assert Moved(core, o).state.Keys == {o.key};
  }

  /**
    * Two requests that finish in one order and are queued in the other: the second to be analyzed
    * carries the earlier time, and is evicted by its own observation.
    */
  lemma ObservedKeyEvicted(ttl: nat)
    ensures LATE_KEY !in Run(Start(1, ttl), [Observe(SEEN_LATER), Observe(SEEN_EARLIER)]).core.state
  {
    var start := Start(1, ttl);
    RunTwo(start, Observe(SEEN_LATER), Observe(SEEN_EARLIER));
    AfterFirstObservation(start.core, SEEN_LATER);
    var core := Observed(start.core, SEEN_LATER);
    var o := SEEN_EARLIER;
    var counted := core.(windows := Put(core.windows, o.commitment, CountOutcome(core.windows[At(o.commitment)], o)));
    assert |core.state.Keys| == 1;
    ObservedKeySurvives(counted, o.key, o.commitment, o.found, o.at);
  }

  // ----- conservation

  /** The totals the conservation laws speak of. */
  datatype Total = Logical | Handled | FirstSeen | EvictedKeys

  ghost function OfWindow(t: Total, w: Shape): nat {
    match t
    case Logical => w.logical
    case Handled => w.analyzed + w.unsupportedBatch
    case FirstSeen => w.firstFound + w.firstNull
    case EvictedKeys => w.capacityEvictions + w.ttlExpirations
  }

  ghost function OfWindows(t: Total, ws: Windows): nat {
    OfWindow(t, ws[0]) + OfWindow(t, ws[1]) + OfWindow(t, ws[2]) + OfWindow(t, ws[3])
  }

  lemma OfWindowsPut(t: Total, ws: Windows, c: Commitment, w: Shape)
    ensures OfWindows(t, Put(ws, c, w)) == OfWindows(t, ws) - OfWindow(t, ws[At(c)]) + OfWindow(t, w)
  {
  }

  ghost function OfEvents(t: Total, es: seq<Event>): nat {
    if es == [] then 0 else OfWindow(t, es[0].window) + OfEvents(t, es[1..])
  }

  lemma {:induction false} OfEventsAppend(t: Total, a: seq<Event>, b: seq<Event>)
    ensures OfEvents(t, a + b) == OfEvents(t, a) + OfEvents(t, b)
  {
    if a == [] {
      assert a + b == b;
    } else {
      assert (a + b)[1..] == a[1..] + b;
      OfEventsAppend(t, a[1..], b);
    }
  }

  /** Everything counted so far, whether already sent or still in a window. */
  ghost function Counted(t: Total, w: World): nat {
    OfWindows(t, w.core.windows) + OfEvents(t, w.sent)
  }

  /** Calls handed to the analyzer by a run. */
  ghost function Calls(steps: seq<Step>): nat {
    if steps == [] then 0
    else Calls(steps[..|steps| - 1]) + CallsOf(steps[|steps| - 1])
  }

  ghost function CallsOf(step: Step): nat {
    match step
    case Observe(_) => 1
    case Error(_, _) => 1
    case BatchOf(calls) => |calls|
    case _ => 0
  }

  /** The calls a job is counted as: its eligible ones, and those a batch recognises beyond them. */
  ghost function CountedCalls(kind: Class): (n: nat)
    ensures n >= EligibleCalls(kind)
    ensures kind.Batch? && |kind.recognised| <= kind.eligible ==> n == EligibleCalls(kind)
  {
    match kind
    case NotHistorical => 0
    case Single(_, _, _, _) => 1
    case Batch(recognised, eligible) => Max(|recognised|, eligible)
  }

  lemma {:induction false} BatchCallsLength(recognised: seq<Commitment>, eligible: nat)
    ensures |BatchCalls(recognised, eligible)| == Max(|recognised|, eligible)
    decreases eligible - |recognised|
  {
    if |recognised| < eligible {
      BatchCallsLength(recognised + [Unknown], eligible);
    }
  }

  /** However its request and response parse, a job is counted as exactly its eligible calls, never fewer. */
  lemma JobCountsItsCalls(job: Job)
    ensures Calls(StepsOf(job)) == CountedCalls(job.kind)
  {
    if job.kind.Batch? {
      BatchCallsLength(job.kind.recognised, job.kind.eligible);
    }
    var expire := [Expire(job.at)];
    assert expire[..0] == [] && Calls(expire) == 0;
    if StepFor(job).Some? {
      assert [Expire(job.at), StepFor(job).value][..1] == expire;
    }
  }

  /** Calls reported as dropped before they reached the analyzer. */
  ghost function Dropped(steps: seq<Step>): nat {
    if steps == [] then 0
    else Dropped(steps[..|steps| - 1]) + DroppedBy(steps[|steps| - 1])
  }

  ghost function DroppedBy(step: Step): nat {
    if step.Flush? then step.q.droppedLogical else 0
  }

  ghost predicate AllBalanced(ws: Windows) {
    forall i | 0 <= i < 4 :: Balanced(ws[i])
  }

  lemma ZeroWindowsBalanced(ws: Windows)
    requires ws == ZERO_WINDOWS
    ensures AllBalanced(ws)
  {
    forall i | 0 <= i < 4
      ensures Balanced(ws[i])
    {
      ZeroWindowBalanced(ws[i]);
    }
  }

  ghost predicate AllAccounted(es: seq<Event>) {
    forall e | e in es :: Accounted(e.window) && (e.commitment != Unknown ==> Balanced(e.window))
  }

  // Balance: each operation keeps every window balanced.

  ghost predicate Sound(core: Core) {
    PollsPositive(core.state) && AllBalanced(core.windows)
  }

  lemma PutBalanced(ws: Windows, c: Commitment, w: Shape)
    requires AllBalanced(ws) && Balanced(w)
    ensures AllBalanced(Put(ws, c, w))
  {
  }

  lemma EvictedSound(core: Core, reason: EvictionReason)
    requires core.state.Keys != {} && Sound(core)
    ensures Sound(Evicted(core, reason))
  {
    var e := core.state[Oldest(core.state)];
    assert Balanced(core.windows[At(e.commitment)]);
    PutBalanced(core.windows, e.commitment, CountEviction(core.windows[At(e.commitment)], reason, e.lifecycle));
  }

  lemma {:induction false} ExpiredSound(core: Core, now: Time)
    requires Sound(core)
    ensures Sound(Expired(core, now))
    decreases |core.state|
  {
    if core.state.Keys != {} && Stale(core.state[Oldest(core.state)], now, core.ttl) {
      EvictedSound(core, Ttl);
      EvictedShrinks(core, Ttl);
      ExpiredSound(Evicted(core, Ttl), now);
    }
  }

  lemma {:induction false} TrimmedSound(core: Core)
    requires Sound(core)
    ensures Sound(Trimmed(core))
    decreases |core.state|
  {
    if |core.state| > core.capacity {
      assert core.state.Keys != {};
      EvictedSound(core, Capacity);
      EvictedShrinks(core, Capacity);
      TrimmedSound(Evicted(core, Capacity));
    }
  }

  /** The state and windows of an observation before trimming. */
  ghost function MovedWindow(core: Core, o: Observation): Shape {
    CountTransition(CountOutcome(core.windows[At(o.commitment)], o),
                    TransitionOf(LifecycleIn(core.state, o.key), o.found, o.at))
  }

  ghost function Moved(core: Core, o: Observation): Core {
    core.(
      state := core.state[
        o.key := Entry(NextLifecycle(LifecycleIn(core.state, o.key), o.found, o.at), o.commitment, o.at)],
      windows := Put(core.windows, o.commitment, MovedWindow(core, o)))
  }

  lemma ObservedIsTrimmed(core: Core, o: Observation)
    ensures Observed(core, o) == Trimmed(Moved(core, o))
  {
    var counted := Put(core.windows, o.commitment, CountOutcome(core.windows[At(o.commitment)], o));
    assert Put(counted, o.commitment, MovedWindow(core, o)) == Put(core.windows, o.commitment, MovedWindow(core, o));
  }

  lemma MovedSound(core: Core, o: Observation)
    requires Sound(core)
    ensures Sound(Moved(core, o))
  {
    var w := core.windows[At(o.commitment)];
    assert Balanced(w);
    ObservationKeepsBalance(w, o, LifecycleIn(core.state, o.key));
    PutBalanced(core.windows, o.commitment, MovedWindow(core, o));
  }

  lemma ErroredSound(core: Core, c: Commitment, kind: ErrorKind)
    requires Sound(core)
    ensures Sound(Errored(core, c, kind))
  {
    assert Balanced(core.windows[At(c)]);
    PutBalanced(core.windows, c, CountError(core.windows[At(c)], kind));
  }

  lemma {:induction false} BatchedSound(core: Core, calls: seq<Commitment>)
    requires Sound(core)
    ensures Sound(Batched(core, calls))
    decreases |calls|
  {
    if calls != [] {
      var w := core.windows[At(calls[0])];
      assert Balanced(w);
      PutBalanced(core.windows, calls[0], CountBatch(w));
      BatchedSound(core.(windows := Put(core.windows, calls[0], CountBatch(w))), calls[1..]);
    }
  }

  // Totals: what each operation adds to each total.

  lemma {:induction false} EvictedTotal(t: Total, core: Core, reason: EvictionReason)
    requires core.state.Keys != {}
    ensures OfWindows(t, Evicted(core, reason).windows)
         == OfWindows(t, core.windows) + (if t == EvictedKeys then 1 else 0)
  {
    var e := core.state[Oldest(core.state)];
    OfWindowsPut(t, core.windows, e.commitment, CountEviction(core.windows[At(e.commitment)], reason, e.lifecycle));
  }

  /** `after` is `core` with some keys evicted, each counted once. */
  ghost predicate Shed(t: Total, core: Core, after: Core) {
    && |after.state| <= |core.state|
    && after.capacity == core.capacity
    && OfWindows(t, after.windows)
       == OfWindows(t, core.windows) + (if t == EvictedKeys then |core.state| - |after.state| else 0)
  }

  lemma {:induction false} ExpiredTotal(t: Total, core: Core, now: Time)
    ensures Shed(t, core, Expired(core, now))
    decreases |core.state|
  {
    if core.state.Keys != {} && Stale(core.state[Oldest(core.state)], now, core.ttl) {
      EvictedTotal(t, core, Ttl);
      EvictedShrinks(core, Ttl);
      ExpiredTotal(t, Evicted(core, Ttl), now);
    }
  }

  lemma {:induction false} TrimmedTotal(t: Total, core: Core)
    ensures Shed(t, core, Trimmed(core)) && |Trimmed(core).state| <= core.capacity
    decreases |core.state|
  {
    if |core.state| > core.capacity {
      assert core.state.Keys != {};
      EvictedTotal(t, core, Capacity);
      EvictedShrinks(core, Capacity);
      TrimmedTotal(t, Evicted(core, Capacity));
    }
  }

  lemma MovedWindowTotal(t: Total, core: Core, o: Observation)
    ensures OfWindow(t, MovedWindow(core, o)) == OfWindow(t, core.windows[At(o.commitment)])
              + (if t == Handled || t == Logical || (t == FirstSeen && o.key !in core.state) then 1 else 0)
  {
  }

  lemma MovedTotal(t: Total, core: Core, o: Observation)
    ensures OfWindows(t, Moved(core, o).windows) == OfWindows(t, core.windows)
              + (if t == Handled || t == Logical || (t == FirstSeen && o.key !in core.state) then 1 else 0)
    ensures |Moved(core, o).state| == |core.state| + (if o.key in core.state then 0 else 1)
  {
    MovedWindowTotal(t, core, o);
    OfWindowsPut(t, core.windows, o.commitment, MovedWindow(core, o));
    assert Moved(core, o).state.Keys == core.state.Keys + {o.key};
  }

  lemma ObservedTotal(t: Total, core: Core, o: Observation)
    ensures Observed(core, o).capacity == core.capacity && |Observed(core, o).state| <= core.capacity
    ensures var new_ := if o.key in core.state then 0 else 1;
            OfWindows(t, Observed(core, o).windows) == OfWindows(t, core.windows)
              + (match t
                 case Handled => 1
                 case Logical => 1
                 case FirstSeen => new_
                 case EvictedKeys => |core.state| + new_ - |Observed(core, o).state|)
  {
    ObservedIsTrimmed(core, o);
    MovedTotal(t, core, o);
    TrimmedTotal(t, Moved(core, o));
  }

  lemma ErroredTotal(t: Total, core: Core, c: Commitment, kind: ErrorKind)
    ensures OfWindows(t, Errored(core, c, kind).windows)
         == OfWindows(t, core.windows) + (if t == Handled || t == Logical then 1 else 0)
  {
    OfWindowsPut(t, core.windows, c, CountError(core.windows[At(c)], kind));
  }

  lemma {:induction false} BatchedTotal(t: Total, core: Core, calls: seq<Commitment>)
    ensures OfWindows(t, Batched(core, calls).windows)
         == OfWindows(t, core.windows) + (if t == Handled || t == Logical then |calls| else 0)
    ensures Batched(core, calls).state == core.state && Batched(core, calls).capacity == core.capacity
    decreases |calls|
  {
    if calls != [] {
      var w := CountBatch(core.windows[At(calls[0])]);
      OfWindowsPut(t, core.windows, calls[0], w);
      BatchedTotal(t, core.(windows := Put(core.windows, calls[0], w)), calls[1..]);
    }
  }

  // Flushing.

  ghost predicate EmptyMeansZero(ws: Windows) {
    forall i | 0 <= i < 4 :: IsEmpty(ws[i]) ==> ws[i] == ZERO_WINDOW
  }

  lemma BalancedEmptyMeansZero(ws: Windows)
    requires AllBalanced(ws)
    ensures EmptyMeansZero(ws)
  {
    forall i | 0 <= i < 4 && IsEmpty(ws[i])
      ensures ws[i] == ZERO_WINDOW
    {
      assert Balanced(ws[i]);
      EmptyWindowIsZero(ws[i]);
    }
  }

  /** Flushing from window `i` on leaves every window zero. */
  lemma {:induction false} FlushEmptiesAll(
      ws: Windows, i: nat, q: Quality, entries: nat, capacity: nat, sent: seq<Event>)
    requires i <= 4 && EmptyMeansZero(ws)
    requires forall j | 0 <= j < i :: ws[j] == ZERO_WINDOW
    ensures FlushedFrom(ws, i, q, entries, capacity, sent).0 == ZERO_WINDOWS
    decreases 4 - i
  {
    if i < 4 {
      if Flushes(ws, i, q) {
        var e := EventFor(ws, i, q, entries, capacity);
        FlushEmptiesAll(ws[i := ZERO_WINDOW], i + 1, q, entries, capacity, sent + [e]);
      } else {
        FlushEmptiesAll(ws, i + 1, q, entries, capacity, sent);
      }
    }
  }

  lemma EventAccounted(ws: Windows, i: nat, q: Quality, entries: nat, capacity: nat)
    requires i < 4 && Balanced(ws[i])
    ensures AllAccounted([EventFor(ws, i, q, entries, capacity)])
  {
    assert Accounted(EventFor(ws, i, q, entries, capacity).window);
  }

  /** Only consistent events are sent. */
  lemma {:induction false} FlushAccounted(
      ws: Windows, i: nat, q: Quality, entries: nat, capacity: nat, sent: seq<Event>)
    requires i <= 4 && AllAccounted(sent)
    requires forall j | i <= j < 4 :: Balanced(ws[j])
    ensures AllAccounted(FlushedFrom(ws, i, q, entries, capacity, sent).1)
    decreases 4 - i
  {
    if i < 4 {
      if Flushes(ws, i, q) {
        EventAccounted(ws, i, q, entries, capacity);
        var e := EventFor(ws, i, q, entries, capacity);
        FlushAccounted(ws[i := ZERO_WINDOW], i + 1, q, entries, capacity, sent + [e]);
      } else {
        FlushAccounted(ws, i + 1, q, entries, capacity, sent);
      }
    }
  }

  lemma EventTotal(t: Total, ws: Windows, i: nat, q: Quality, entries: nat, capacity: nat)
    requires i < 4
    ensures OfEvents(t, [EventFor(ws, i, q, entries, capacity)])
         == OfWindow(t, ws[i]) + (if i == 3 && t == Logical then q.droppedLogical else 0)
  {
    var e := EventFor(ws, i, q, entries, capacity);
    assert [e][1..] == [];
    assert OfEvents(t, [e]) == OfWindow(t, e.window) + OfEvents(t, [e][1..]);
  }

  /** What a flush sends is exactly what the windows held, plus the dropped calls. */
  lemma {:induction false} FlushSendsAll(
      t: Total, ws: Windows, i: nat, q: Quality, entries: nat, capacity: nat, sent: seq<Event>)
    requires i <= 4 && EmptyMeansZero(ws)
    requires forall j | 0 <= j < i :: ws[j] == ZERO_WINDOW
    ensures OfEvents(t, FlushedFrom(ws, i, q, entries, capacity, sent).1)
         == OfEvents(t, sent) + OfWindows(t, ws) + (if i < 4 && t == Logical then q.droppedLogical else 0)
    decreases 4 - i
  {
    if i == 4 {
      assert OfWindow(t, ZERO_WINDOW) == 0;
    } else if Flushes(ws, i, q) {
      var e := EventFor(ws, i, q, entries, capacity);
      OfWindowsPut(t, ws, ForIndex(i), ZERO_WINDOW);
      EventTotal(t, ws, i, q, entries, capacity);
      OfEventsAppend(t, sent, [e]);
      FlushSendsAll(t, ws[i := ZERO_WINDOW], i + 1, q, entries, capacity, sent + [e]);
    } else {
      FlushSendsAll(t, ws, i + 1, q, entries, capacity, sent);
    }
  }

  ghost function FlushOf(core: Core, q: Quality): (Windows, seq<Event>) {
    FlushedFrom(core.windows, FIRST, q, |core.state|, core.capacity, [])
  }

  lemma ApplyFlush(w: World, q: Quality)
    ensures Apply(w, Flush(q)) == World(w.core.(windows := FlushOf(w.core, q).0), w.sent + FlushOf(w.core, q).1)
  {
  }

  lemma FlushTotal(t: Total, w: World, q: Quality)
    requires Sound(w.core)
    ensures Counted(t, Apply(w, Flush(q))) == Counted(t, w) + (if t == Logical then q.droppedLogical else 0)
  {
    ApplyFlush(w, q);
    BalancedEmptyMeansZero(w.core.windows);
    FlushEmptiesAll(w.core.windows, FIRST, q, |w.core.state|, w.core.capacity, []);
    FlushSendsAll(t, w.core.windows, FIRST, q, |w.core.state|, w.core.capacity, []);
    OfEventsAppend(t, w.sent, FlushOf(w.core, q).1);
    ZeroTotal(t, FlushOf(w.core, q).0);
  }

  lemma ZeroTotal(t: Total, ws: Windows)
    requires ws == ZERO_WINDOWS
    ensures OfWindows(t, ws) == 0
  {
  }

  lemma FlushSound(w: World, q: Quality)
    requires Sound(w.core) && AllAccounted(w.sent)
    ensures Sound(Apply(w, Flush(q)).core) && AllAccounted(Apply(w, Flush(q)).sent)
  {
    ApplyFlush(w, q);
    BalancedEmptyMeansZero(w.core.windows);
    FlushEmptiesAll(w.core.windows, FIRST, q, |w.core.state|, w.core.capacity, []);
    ZeroWindowsBalanced(FlushOf(w.core, q).0);
    FlushAccounted(w.core.windows, FIRST, q, |w.core.state|, w.core.capacity, []);
  }

  // One step at a time.

  lemma StepSound(w: World, step: Step)
    requires Sound(w.core) && AllAccounted(w.sent)
    ensures Sound(Apply(w, step).core) && AllAccounted(Apply(w, step).sent)
  {
    match step {
      case Expire(now) => ExpiredSound(w.core, now);
      case Observe(o) =>
        ObservedIsTrimmed(w.core, o);
        MovedSound(w.core, o);
        TrimmedSound(Moved(w.core, o));
      case Error(c, kind) => ErroredSound(w.core, c, kind);
      case BatchOf(calls) => BatchedSound(w.core, calls);
      case Flush(q) => FlushSound(w, q);
    }
  }

  /** What a step adds to a total. */
  ghost function Added(t: Total, w: World, step: Step): int {
    match t
    case Handled => CallsOf(step)
    case Logical => CallsOf(step) + DroppedBy(step)
    case FirstSeen => NewKeys(w, step)
    case EvictedKeys => |w.core.state| + NewKeys(w, step) - |Apply(w, step).core.state|
  }

  ghost function NewKeys(w: World, step: Step): nat {
    if step.Observe? && step.o.key !in w.core.state then 1 else 0
  }

  /** A step adds its due to a total, and keeps the state within capacity. */
  ghost predicate AddsDue(t: Total, w: World, step: Step) {
    && Counted(t, Apply(w, step)) == Counted(t, w) + Added(t, w, step)
    && Apply(w, step).core.capacity == w.core.capacity
    && (|w.core.state| <= w.core.capacity ==> |Apply(w, step).core.state| <= w.core.capacity)
  }

  lemma ExpireAddsDue(t: Total, w: World, now: Time)
    ensures AddsDue(t, w, Expire(now))
  {
    ExpiredTotal(t, w.core, now);
  }

  lemma ObserveAddsDue(t: Total, w: World, o: Observation)
    ensures AddsDue(t, w, Observe(o))
  {
    ObservedTotal(t, w.core, o);
  }

  lemma FlushAddsDue(t: Total, w: World, q: Quality)
    requires Sound(w.core)
    ensures AddsDue(t, w, Flush(q))
  {
    FlushTotal(t, w, q);
  }

  lemma StepTotal(t: Total, w: World, step: Step)
    requires Sound(w.core)
    ensures AddsDue(t, w, step)
  {
    match step {
      case Expire(now) => ExpireAddsDue(t, w, now);
      case Observe(o) => ObserveAddsDue(t, w, o);
      case Error(c, kind) => ErroredTotal(t, w.core, c, kind);
      case BatchOf(calls) => BatchedTotal(t, w.core, calls);
      case Flush(q) => FlushAddsDue(t, w, q);
    }
  }

  /**
    * Conservation over whole runs. After any steps, counting windows and sent events together:
    * every call handed in was counted exactly once; the logical count adds exactly the calls
    * reported dropped; every first observation is still resident or was evicted; and each
    * window and event splits its totals exactly.
    */
  lemma {:induction false} RunConserves(capacity: nat, ttl: nat, steps: seq<Step>)
    ensures var w := Run(Start(capacity, ttl), steps);
      && |w.core.state| <= capacity
      && AllBalanced(w.core.windows) && AllAccounted(w.sent)
      && Counted(Handled, w) == Calls(steps)
      && Counted(Logical, w) == Calls(steps) + Dropped(steps)
      && Counted(FirstSeen, w) == |w.core.state| + Counted(EvictedKeys, w)
  {
    RunSound(capacity, ttl, steps);
    RunTotals(capacity, ttl, steps);
  }

  lemma StartSound(capacity: nat, ttl: nat)
    ensures Sound(Start(capacity, ttl).core)
  {
    ZeroWindowsBalanced(Start(capacity, ttl).core.windows);
  }

  lemma {:induction false} RunSound(capacity: nat, ttl: nat, steps: seq<Step>)
    ensures var w := Run(Start(capacity, ttl), steps); Sound(w.core) && AllAccounted(w.sent)
    decreases |steps|
  {
    if steps == [] {
      StartSound(capacity, ttl);
    } else {
      var before, step := steps[..|steps| - 1], steps[|steps| - 1];
      RunSound(capacity, ttl, before);
      StepSound(Run(Start(capacity, ttl), before), step);
    }
  }

  lemma {:induction false} RunTotals(capacity: nat, ttl: nat, steps: seq<Step>)
    ensures var w := Run(Start(capacity, ttl), steps);
      && w.core.capacity == capacity && |w.core.state| <= capacity
      && Counted(Handled, w) == Calls(steps)
      && Counted(Logical, w) == Calls(steps) + Dropped(steps)
      && Counted(FirstSeen, w) == |w.core.state| + Counted(EvictedKeys, w)
    decreases |steps|
  {
    if steps != [] {
      var before, step := steps[..|steps| - 1], steps[|steps| - 1];
      RunTotals(capacity, ttl, before);
      RunSound(capacity, ttl, before);
      var w := Run(Start(capacity, ttl), before);
      StepTotal(Handled, w, step);
      StepTotal(Logical, w, step);
      StepTotal(FirstSeen, w, step);
      StepTotal(EvictedKeys, w, step);
    }
  }
}
