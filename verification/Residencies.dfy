/**
  * What the analyzer of src/historical.rs remembers of a key while it is resident: its lifecycle is
  * exactly its observations since insertion, and each residency adds exactly the histogram samples
  * those observations owe.
  */
module Residencies {
  import opened Common
  import opened Historical
  import opened AnalyzerRuns

  /** The observations of `k` since it was last inserted. */
  ghost function Residency(w: World, steps: seq<Step>, k: Fingerprint): seq<Observation> {
    if steps == [] then []
    else
      var before, step := steps[..|steps| - 1], steps[|steps| - 1];
      if k !in Run(w, steps).core.state then []
      else Extended(Residency(w, before, k), step, k)
  }

  ghost predicate AllNull(h: seq<Observation>) {
    forall i | 0 <= i < |h| :: !h[i].found
  }

  /** NullSeen exactly when every observation was null; otherwise the latest one that found. */
  ghost predicate Reflects(l: Lifecycle, h: seq<Observation>) {
    match l
    case NullSeen(first, polls) => h != [] && AllNull(h) && first == h[0].at && polls == |h|
    case Found(last) => exists i :: 0 <= i < |h| && h[i].found && h[i].at == last && AllNull(h[i + 1..])
  }

  ghost predicate Refines(w: World, steps: seq<Step>, k: Fingerprint) {
    EntryReflects(Run(w, steps).core.state, k, Residency(w, steps, k))
  }

  /** Reflection fixes the lifecycle: no other value reflects the same history. */
  lemma ReflectionIsUnique(l: Lifecycle, m: Lifecycle, h: seq<Observation>)
    requires Reflects(l, h) && Reflects(m, h)
    ensures l == m
  {
    if l.Found? && m.Found? {
      var i :| 0 <= i < |h| && h[i].found && h[i].at == l.lastFoundAt && AllNull(h[i + 1..]);
      var j :| 0 <= j < |h| && h[j].found && h[j].at == m.lastFoundAt && AllNull(h[j + 1..]);
      assert forall n | i < n < |h| :: h[n] == h[i + 1..][n - i - 1];
      assert forall n | j < n < |h| :: h[n] == h[j + 1..][n - j - 1];
    }
  }

  lemma NextReflects(previous: Option<Lifecycle>, h: seq<Observation>, o: Observation)
    requires previous.None? ==> h == []
    requires previous.Some? ==> Reflects(previous.value, h)
    ensures Reflects(NextLifecycle(previous, o.found, o.at), h + [o])
  {
    var more := h + [o];
    if o.found {
      assert more[|h|].found && AllNull(more[|h| + 1..]);
    } else if previous.Some? && previous.value.Found? {
      var i :| 0 <= i < |h| && h[i].found && h[i].at == previous.value.lastFoundAt && AllNull(h[i + 1..]);
      assert more[i + 1..] == h[i + 1..] + [o];
      assert more[i].found && more[i].at == previous.value.lastFoundAt && AllNull(more[i + 1..]);
    }
  }

  /** Entries are only ever removed by expiry, trimming and flushing, never changed. */
  lemma {:induction false} ExpiredKeeps(core: Core, now: Time, k: Fingerprint)
    requires k in Expired(core, now).state
    ensures k in core.state && Expired(core, now).state[k] == core.state[k]
    decreases |core.state|
  {
    if core.state.Keys != {} && Stale(core.state[Oldest(core.state)], now, core.ttl) {
      EvictedShrinks(core, Ttl);
      ExpiredKeeps(Evicted(core, Ttl), now, k);
    }
  }

  lemma {:induction false} TrimmedKeeps(core: Core, k: Fingerprint)
    requires k in Trimmed(core).state
    ensures k in core.state && Trimmed(core).state[k] == core.state[k]
    decreases |core.state|
  {
    if |core.state| > core.capacity {
      assert core.state.Keys != {};
      EvictedShrinks(core, Capacity);
      TrimmedKeeps(Evicted(core, Capacity), k);
    }
  }

  /** What an observation leaves of a key that is still resident. */
  lemma ObservedKeeps(core: Core, o: Observation, k: Fingerprint, h: seq<Observation>)
    requires k in Observed(core, o).state
    requires if k in core.state then Reflects(core.state[k].lifecycle, h) else h == []
    ensures var e := Observed(core, o).state[k];
            if o.key == k then e.lastSeen == o.at && Reflects(e.lifecycle, h + [o])
            else k in core.state && e == core.state[k]
  {
    ObservedIsTrimmed(core, o);
    TrimmedKeeps(Moved(core, o), k);
    if o.key == k {
      NextReflects(LifecycleIn(core.state, k), h, o);
    }
  }

  /** The observations of `k` after one more step, if it is still resident. */
  ghost function Extended(h: seq<Observation>, step: Step, k: Fingerprint): seq<Observation> {
    if step.Observe? && step.o.key == k then h + [step.o] else h
  }

  /** What a key's entry must say of its observations `h`. */
  ghost predicate EntryReflects(state: States, k: Fingerprint, h: seq<Observation>) {
    if k !in state then h == []
    else h != [] && state[k].lastSeen == h[|h| - 1].at && Reflects(state[k].lifecycle, h)
  }

  lemma StepReflects(w: World, step: Step, k: Fingerprint, h: seq<Observation>)
    requires EntryReflects(w.core.state, k, h) && k in Apply(w, step).core.state
    ensures EntryReflects(Apply(w, step).core.state, k, Extended(h, step, k))
  {
    match step {
      case Expire(now) => ExpiredKeeps(w.core, now, k);
      case Observe(o) => ObservedKeeps(w.core, o, k, h);
      case BatchOf(calls) => BatchedTotal(Handled, w.core, calls);
      case _ =>
    }
  }

  lemma StepRefines(w: World, steps: seq<Step>, k: Fingerprint)
    requires steps != [] && Refines(w, steps[..|steps| - 1], k)
    ensures Refines(w, steps, k)
  {
    var before, step := steps[..|steps| - 1], steps[|steps| - 1];
    if k in Run(w, steps).core.state {
      StepReflects(Run(w, before), step, k, Residency(w, before, k));
    }
  }

  /** In every run each resident key's lifecycle is exactly what its observations since insertion say. */
  lemma {:induction false} LifecycleRefinesHistory(capacity: nat, ttl: nat, steps: seq<Step>, k: Fingerprint)
    ensures Refines(Start(capacity, ttl), steps, k)
    decreases |steps|
  {
    if steps != [] {
      LifecycleRefinesHistory(capacity, ttl, steps[..|steps| - 1], k);
      StepRefines(Start(capacity, ttl), steps, k);
    }
  }

  /** Eviction touches no histogram. */
  lemma {:induction false} TrimmedKeepsHistograms(core: Core, i: nat)
    requires i < 4
    ensures var w, w' := core.windows[i], Trimmed(core).windows[i];
            && w'.pollsBeforeFound == w.pollsBeforeFound
            && w'.timeToFound == w.timeToFound
            && w'.foundReuse == w.foundReuse
    decreases |core.state|
  {
    if |core.state| > core.capacity {
      assert core.state.Keys != {};
      EvictedShrinks(core, Capacity);
      TrimmedKeepsHistograms(Evicted(core, Capacity), i);
    }
  }

  /** The samples one transition adds. */
  lemma MovedHistograms(w: Shape, o: Observation, t: Transition)
    ensures var w' := CountTransition(CountOutcome(w, o), t);
      && w'.pollsBeforeFound == (match t
           case FirstObservationFound => Bump(w.pollsBeforeFound, 0)
           case NullToFound(polls, _) => Bump(w.pollsBeforeFound, PollsBucket(polls))
           case _ => w.pollsBeforeFound)
      && w'.timeToFound == (if t.NullToFound? then Bump(w.timeToFound, TimeToFoundBucket(t.elapsed)) else w.timeToFound)
      && w'.foundReuse == (if t.FoundRepeat? then Bump(w.foundReuse, ReuseBucket(t.elapsed)) else w.foundReuse)
  {
  }

  /** The transition of an observation, read off the residency before it. */
  lemma TransitionFromHistory(previous: Option<Lifecycle>, h: seq<Observation>, o: Observation, t: Transition)
    requires t == TransitionOf(previous, o.found, o.at)
    requires if previous.None? then h == [] else h != [] && Reflects(previous.value, h)
    ensures t.FirstObservationFound? <==> o.found && h == []
    ensures t.NullToFound? <==> o.found && h != [] && AllNull(h)
    ensures t.NullToFound? ==> t.polls == |h| && t.elapsed == Elapsed(o.at, h[0].at)
    ensures t.FoundRepeat? <==> o.found && !AllNull(h)
    ensures t.FoundRepeat? ==> exists j :: LastFound(h, j) && t.elapsed == Elapsed(o.at, h[j].at)
  {
    if previous.Some? && previous.value.Found? {
      var j :| 0 <= j < |h| && h[j].found && h[j].at == previous.value.lastFoundAt && AllNull(h[j + 1..]);
      assert LastFound(h, j) && !AllNull(h);
    }
  }

  ghost predicate LastFound(h: seq<Observation>, j: int) {
    0 <= j < |h| && h[j].found && AllNull(h[j + 1..])
  }

  /**
    * One residency adds at most one sample to the polls histogram, by the first observation that
    * finds it, in the bucket of the nulls polled before; with nulls before, that observation also
    * adds the one time-to-found sample, measured from the first null. Every later observation
    * that finds it adds one reuse sample, measured from the latest find. Nothing else adds any.
    */
  lemma HistogramsFollowResidency(capacity: nat, ttl: nat, steps: seq<Step>, o: Observation)
    ensures var w := Run(Start(capacity, ttl), steps);
      var h := Residency(Start(capacity, ttl), steps, o.key);
      var before, after := w.core.windows[At(o.commitment)], Apply(w, Observe(o)).core.windows[At(o.commitment)];
      && after.pollsBeforeFound
         == (if o.found && AllNull(h) then Bump(before.pollsBeforeFound, PollsBucket(|h|)) else before.pollsBeforeFound)
      && after.timeToFound
         == (if o.found && AllNull(h) && h != []
             then Bump(before.timeToFound, TimeToFoundBucket(Elapsed(o.at, h[0].at))) else before.timeToFound)
      && (if o.found && !AllNull(h)
          then exists j ::
            LastFound(h, j) && after.foundReuse == Bump(before.foundReuse, ReuseBucket(Elapsed(o.at, h[j].at)))
          else after.foundReuse == before.foundReuse)
  {
    var w := Run(Start(capacity, ttl), steps);
    LifecycleRefinesHistory(capacity, ttl, steps, o.key);
    var previous := LifecycleIn(w.core.state, o.key);
    var t := TransitionOf(previous, o.found, o.at);
    ObservedIsTrimmed(w.core, o);
    TrimmedKeepsHistograms(Moved(w.core, o), At(o.commitment));
    MovedHistograms(w.core.windows[At(o.commitment)], o, t);
    TransitionFromHistory(previous, Residency(Start(capacity, ttl), steps, o.key), o, t);
  }

  ghost function One(b: bool): nat {
    if b then 1 else 0
  }

  lemma MovedCounters(w: Shape, o: Observation, t: Transition)
    ensures var w' := CountTransition(CountOutcome(w, o), t);
      && w'.firstFound == w.firstFound + One(t.FirstObservationFound?)
      && w'.firstNull == w.firstNull + One(t.FirstObservationNull?)
      && w'.nullRepeat == w.nullRepeat + One(t.NullRepeat?)
      && w'.nullToFound == w.nullToFound + One(t.NullToFound?)
      && w'.foundRepeat == w.foundRepeat + One(t.FoundRepeat?)
      && w'.foundToNull == w.foundToNull + One(t.FoundToNullRegression?)
  {
  }

  lemma {:induction false} TrimmedKeepsCounters(core: Core, i: nat)
    requires i < 4
    ensures var w, w' := core.windows[i], Trimmed(core).windows[i];
            w' == w.(capacityEvictions := w'.capacityEvictions, nullCapacityEvictions := w'.nullCapacityEvictions)
    decreases |core.state|
  {
    if |core.state| > core.capacity {
      assert core.state.Keys != {};
      EvictedShrinks(core, Capacity);
      TrimmedKeepsCounters(Evicted(core, Capacity), i);
    }
  }

  /** The transition one observation is counted as, read off the residency before it: exactly one of six. */
  lemma TransitionsFollowResidency(capacity: nat, ttl: nat, steps: seq<Step>, o: Observation)
    ensures var w := Run(Start(capacity, ttl), steps);
      var h := Residency(Start(capacity, ttl), steps, o.key);
      var before, after := w.core.windows[At(o.commitment)], Apply(w, Observe(o)).core.windows[At(o.commitment)];
      && after.firstFound == before.firstFound + One(o.found && h == [])
      && after.firstNull == before.firstNull + One(!o.found && h == [])
      && after.nullToFound == before.nullToFound + One(o.found && h != [] && AllNull(h))
      && after.nullRepeat == before.nullRepeat + One(!o.found && h != [] && AllNull(h))
      && after.foundRepeat == before.foundRepeat + One(o.found && !AllNull(h))
      && after.foundToNull == before.foundToNull + One(!o.found && !AllNull(h))
  {
    var w := Run(Start(capacity, ttl), steps);
    LifecycleRefinesHistory(capacity, ttl, steps, o.key);
    var previous := LifecycleIn(w.core.state, o.key);
    var t := TransitionOf(previous, o.found, o.at);
    ObservedIsTrimmed(w.core, o);
    TrimmedKeepsCounters(Moved(w.core, o), At(o.commitment));
    MovedCounters(w.core.windows[At(o.commitment)], o, t);
    TransitionKinds(previous, Residency(Start(capacity, ttl), steps, o.key), o, t);
  }

  lemma TransitionKinds(previous: Option<Lifecycle>, h: seq<Observation>, o: Observation, t: Transition)
    requires t == TransitionOf(previous, o.found, o.at)
    requires if previous.None? then h == [] else h != [] && Reflects(previous.value, h)
    ensures t.FirstObservationFound? <==> o.found && h == []
    ensures t.FirstObservationNull? <==> !o.found && h == []
    ensures t.NullToFound? <==> o.found && h != [] && AllNull(h)
    ensures t.NullRepeat? <==> !o.found && h != [] && AllNull(h)
    ensures t.FoundRepeat? <==> o.found && !AllNull(h)
    ensures t.FoundToNullRegression? <==> !o.found && !AllNull(h)
  {
    if previous.Some? && previous.value.Found? {
      var j :| 0 <= j < |h| && h[j].found && h[j].at == previous.value.lastFoundAt && AllNull(h[j + 1..]);
      assert !AllNull(h);
    }
  }

  /** Windows of other commitments get no sample. */
  lemma OtherHistogramsUntouched(core: Core, o: Observation, i: nat)
    requires i < 4 && i != At(o.commitment)
    ensures var w, w' := core.windows[i], Observed(core, o).windows[i];
            && w'.pollsBeforeFound == w.pollsBeforeFound
            && w'.timeToFound == w.timeToFound
            && w'.foundReuse == w.foundReuse
  {
    ObservedIsTrimmed(core, o);
    TrimmedKeepsHistograms(Moved(core, o), i);
  }

  // ----- samples per residency

  datatype Histogram = Polls | TimeToFound | Reuse

  ghost function Buckets(hist: Histogram, w: Shape): seq<nat> {
    match hist
    case Polls => w.pollsBeforeFound
    case TimeToFound => w.timeToFound
    case Reuse => w.foundReuse
  }

  /** The samples of a histogram over all four windows. */
  ghost function Samples(hist: Histogram, ws: Windows): nat {
    Sum(Buckets(hist, ws[0])) + Sum(Buckets(hist, ws[1])) + Sum(Buckets(hist, ws[2])) + Sum(Buckets(hist, ws[3]))
  }

  ghost predicate SameHistograms(ws: Windows, ws': Windows) {
    forall hist: Histogram, i | 0 <= i < 4 :: Buckets(hist, ws'[i]) == Buckets(hist, ws[i])
  }

  lemma SamplesPut(hist: Histogram, ws: Windows, c: Commitment, w: Shape)
    ensures Samples(hist, Put(ws, c, w)) == Samples(hist, ws) - Sum(Buckets(hist, ws[At(c)])) + Sum(Buckets(hist, w))
  {
  }

  lemma {:induction false} ExpiredKeepsHistograms(core: Core, now: Time)
    ensures SameHistograms(core.windows, Expired(core, now).windows)
    decreases |core.state|
  {
    if core.state.Keys != {} && Stale(core.state[Oldest(core.state)], now, core.ttl) {
      EvictedShrinks(core, Ttl);
      ExpiredKeepsHistograms(Evicted(core, Ttl), now);
    }
  }

  lemma {:induction false} BatchedKeepsHistograms(core: Core, calls: seq<Commitment>)
    ensures SameHistograms(core.windows, Batched(core, calls).windows)
    decreases |calls|
  {
    if calls != [] {
      var w := CountBatch(core.windows[At(calls[0])]);
      BatchedKeepsHistograms(core.(windows := Put(core.windows, calls[0], w)), calls[1..]);
    }
  }

  /** Expirations, errors and batches add no sample to any histogram. */
  lemma OnlyObservationsSample(w: World, step: Step)
    requires step.Expire? || step.Error? || step.BatchOf?
    ensures SameHistograms(w.core.windows, Apply(w, step).core.windows)
  {
    match step {
      case Expire(now) => ExpiredKeepsHistograms(w.core, now);
      case BatchOf(calls) => BatchedKeepsHistograms(w.core, calls);
      case _ =>
    }
  }

  /** The samples a transition adds to a histogram. */
  ghost function SamplesBy(hist: Histogram, t: Transition): nat {
    match hist
    case Polls => if t.FirstObservationFound? || t.NullToFound? then 1 else 0
    case TimeToFound => if t.NullToFound? then 1 else 0
    case Reuse => if t.FoundRepeat? then 1 else 0
  }

  lemma TrimmedKeepsSamples(hist: Histogram, core: Core)
    ensures Samples(hist, Trimmed(core).windows) == Samples(hist, core.windows)
  {
    forall i: nat | i < 4
      ensures Buckets(hist, Trimmed(core).windows[i]) == Buckets(hist, core.windows[i])
    {
      TrimmedKeepsHistograms(core, i);
    }
  }

  lemma WindowSamples(hist: Histogram, w: Shape, o: Observation, t: Transition)
    ensures Sum(Buckets(hist, CountTransition(CountOutcome(w, o), t))) == Sum(Buckets(hist, w)) + SamplesBy(hist, t)
  {
    OutcomeKeepsBuckets(hist, w, o);
    TransitionSamples(hist, CountOutcome(w, o), t);
  }

  lemma OutcomeKeepsBuckets(hist: Histogram, w: Shape, o: Observation)
    ensures Buckets(hist, CountOutcome(w, o)) == Buckets(hist, w)
  {
  }

  lemma TransitionSamples(hist: Histogram, w: Shape, t: Transition)
    ensures Sum(Buckets(hist, CountTransition(w, t))) == Sum(Buckets(hist, w)) + SamplesBy(hist, t)
  {
    CountTransitionSums(w, t);
  }

  lemma MovedSamples(hist: Histogram, core: Core, o: Observation, t: Transition)
    requires t == TransitionOf(LifecycleIn(core.state, o.key), o.found, o.at)
    ensures Samples(hist, Moved(core, o).windows) == Samples(hist, core.windows) + SamplesBy(hist, t)
  {
    WindowSamples(hist, core.windows[At(o.commitment)], o, t);
    SamplesPut(hist, core.windows, o.commitment, MovedWindow(core, o));
  }

  lemma ObservedSamples(hist: Histogram, core: Core, o: Observation, t: Transition)
    requires t == TransitionOf(LifecycleIn(core.state, o.key), o.found, o.at)
    ensures Samples(hist, Observed(core, o).windows) == Samples(hist, core.windows) + SamplesBy(hist, t)
  {
    ObservedIsTrimmed(core, o);
    MovedSamples(hist, core, o, t);
    TrimmedKeepsSamples(hist, Moved(core, o));
  }

  ghost function Finds(h: seq<Observation>): nat {
    if h == [] then 0 else Finds(h[..|h| - 1]) + (if h[|h| - 1].found then 1 else 0)
  }

  lemma {:induction false} NoFinds(h: seq<Observation>)
    ensures Finds(h) == 0 <==> AllNull(h)
  {
    if h != [] {
      NoFinds(h[..|h| - 1]);
      assert forall i | 0 <= i < |h| - 1 :: h[..|h| - 1][i] == h[i];
    }
  }

  /** What the observations of one residency owe a histogram. */
  ghost function Due(hist: Histogram, h: seq<Observation>): nat {
    if Finds(h) == 0 then 0
    else match hist
      case Polls => 1
      case TimeToFound => if h[0].found then 0 else 1
      case Reuse => Finds(h) - 1
  }

  lemma DueNext(hist: Histogram, previous: Option<Lifecycle>, h: seq<Observation>, o: Observation, t: Transition)
    requires t == TransitionOf(previous, o.found, o.at)
    requires if previous.None? then h == [] else h != [] && Reflects(previous.value, h)
    ensures Due(hist, h + [o]) == Due(hist, h) + SamplesBy(hist, t)
  {
    assert (h + [o])[..|h|] == h;
    NoFinds(h);
    NoFinds(h + [o]);
    TransitionFromHistory(previous, h, o, t);
  }

  /** The samples that the observations of the current residency of `k` have added. */
  ghost function SamplesOf(hist: Histogram, w: World, steps: seq<Step>, k: Fingerprint): int {
    if steps == [] then 0
    else
      var before, step := steps[..|steps| - 1], steps[|steps| - 1];
      if k !in Run(w, steps).core.state then 0
      else if step.Observe? && step.o.key == k then
        SamplesOf(hist, w, before, k)
        + Samples(hist, Run(w, steps).core.windows) - Samples(hist, Run(w, before).core.windows)
      else SamplesOf(hist, w, before, k)
  }

  lemma ObservationAddsDue(hist: Histogram, core: Core, o: Observation, h: seq<Observation>)
    requires EntryReflects(core.state, o.key, h)
    ensures Samples(hist, Observed(core, o).windows) - Samples(hist, core.windows)
         == Due(hist, h + [o]) - Due(hist, h)
  {
    var previous := LifecycleIn(core.state, o.key);
    var t := TransitionOf(previous, o.found, o.at);
    DueNext(hist, previous, h, o, t);
    ObservedSamples(hist, core, o, t);
  }

  /**
    * Over a whole residency: one polls sample if it was ever found and none otherwise; one
    * time-to-found sample if it was found after nulls; one reuse sample per find after the first.
    */
  lemma {:induction false} ResidencySamples(
      capacity: nat, ttl: nat, steps: seq<Step>, k: Fingerprint, hist: Histogram)
    ensures var start := Start(capacity, ttl);
            SamplesOf(hist, start, steps, k) == Due(hist, Residency(start, steps, k))
    decreases |steps|
  {
    var start := Start(capacity, ttl);
    if steps != [] && k in Run(start, steps).core.state {
      var before, step := steps[..|steps| - 1], steps[|steps| - 1];
      ResidencySamples(capacity, ttl, before, k, hist);
      if step.Observe? && step.o.key == k {
        LifecycleRefinesHistory(capacity, ttl, before, k);
        ObservationAddsDue(hist, Run(start, before).core, step.o, Residency(start, before, k));
      }
    }
  }
}
