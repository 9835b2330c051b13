/**
  * What a job does to the analyzer (src/historical.rs), from the request and response themselves:
  * which status and body count as found, null or an error, under which commitment, with which slot
  * age; and which calls of a batch, and which windows of a flush, are counted where.
  */
module AnalyzerJobs {
  import opened Common
  import opened Historical
  import opened Analyzer
  import opened AnalyzerRuns
  import opened Residencies

  /** A getTransaction call with a fingerprint. */
  function KeyedJob(
      c: Commitment, key: Fingerprint, status: nat, response: ResponseJson, tips: Tips, at: Time): Job
  {
    Job(Single(Request(c, Some(key)), status, response, tips), at)
  }

  /** One more call under commitment `c`, with one of four outcomes, and no batch. */
  ghost predicate CountsOne(
      before: Core, after: Core, c: Commitment, found: nat, nulls: nat, rpcErrors: nat, parseErrors: nat)
  {
    forall d: Commitment ::
      var w, w', one := before.windows[At(d)], after.windows[At(d)], if d == c then 1 else 0;
      && w'.logical == w.logical + one && w'.analyzed == w.analyzed + one
      && w'.unsupportedBatch == w.unsupportedBatch
      && w'.found == w.found + one * found && w'.nulls == w.nulls + one * nulls
      && w'.rpcErrors == w.rpcErrors + one * rpcErrors && w'.parseErrors == w.parseErrors + one * parseErrors
  }

  /** The slot age of a found transaction, against the tip of its own commitment. */
  ghost predicate CountsAge(w: Shape, w': Shape, slot: Option<nat>, tip: Option<nat>) {
    if slot.Some? && tip.Some? && slot.value <= tip.value then
      && w'.slotAge == Bump(w.slotAge, SlotAgeBucket(tip.value - slot.value))
      && w'.slotAgeTipBehind == w.slotAgeTipBehind && w'.slotAgeUnknown == w.slotAgeUnknown
    else if slot.Some? && tip.Some? then
      && w'.slotAgeTipBehind == w.slotAgeTipBehind + 1
      && w'.slotAge == w.slotAge && w'.slotAgeUnknown == w.slotAgeUnknown
    else
      && w'.slotAgeUnknown == w.slotAgeUnknown + 1
      && w'.slotAge == w.slotAge && w'.slotAgeTipBehind == w.slotAgeTipBehind
  }

  /** Outcomes and slot ages are the same; transitions and evictions may differ. */
  ghost predicate SameOutcomes(w: Shape, w': Shape) {
    && w'.logical == w.logical && w'.analyzed == w.analyzed && w'.unsupportedBatch == w.unsupportedBatch
    && w'.found == w.found && w'.nulls == w.nulls
    && w'.rpcErrors == w.rpcErrors && w'.parseErrors == w.parseErrors
    && w'.slotAge == w.slotAge && w'.slotAgeUnknown == w.slotAgeUnknown
    && w'.slotAgeTipBehind == w.slotAgeTipBehind
  }

  lemma TransitionKeepsOutcomes(w: Shape, t: Transition)
    ensures SameOutcomes(w, CountTransition(w, t))
  {
  }

  lemma TrimKeepsOutcomes(core: Core, d: Commitment)
    ensures SameOutcomes(core.windows[At(d)], Trimmed(core).windows[At(d)])
  {
    TrimmedKeepsCounters(core, At(d));
  }

  lemma ObservedWindow(core: Core, o: Observation, d: Commitment)
    ensures var w := core.windows[At(d)];
            SameOutcomes(if d == o.commitment then CountOutcome(w, o) else w, Observed(core, o).windows[At(d)])
  {
    var w := CountOutcome(core.windows[At(o.commitment)], o);
    ObservedIsTrimmed(core, o);
    PutAt(core.windows, o.commitment, MovedWindow(core, o), d);
    TransitionKeepsOutcomes(w, TransitionOf(LifecycleIn(core.state, o.key), o.found, o.at));
    TrimKeepsOutcomes(Moved(core, o), d);
  }

  lemma ObservedCounts(core: Core, o: Observation)
    ensures CountsOne(core, Observed(core, o), o.commitment, if o.found then 1 else 0, if o.found then 0 else 1, 0, 0)
  {
    forall d: Commitment {
      ObservedWindow(core, o, d);
    }
  }

  lemma ObservedEntry(core: Core, o: Observation)
    requires o.key in Observed(core, o).state
    ensures Observed(core, o).state[o.key]
         == Entry(NextLifecycle(LifecycleIn(core.state, o.key), o.found, o.at), o.commitment, o.at)
  {
    ObservedIsTrimmed(core, o);
    TrimmedKeeps(Moved(core, o), o.key);
  }

  /** The tip a slot is dated against. */
  ghost function OwnTip(tips: Tips, c: Commitment): Option<nat> {
    if c == Processed then tips.processed
    else if c == Confirmed then tips.confirmed
    else if c == Finalized then tips.finalized
    else None
  }

  lemma OutcomeAge(w: Shape, o: Observation)
    requires o.found
    ensures CountsAge(w, CountOutcome(w, o), o.slot, OwnTip(o.tips, o.commitment))
  {
  }

  lemma ObservedAge(core: Core, o: Observation)
    requires o.found
    ensures CountsAge(core.windows[At(o.commitment)], Observed(core, o).windows[At(o.commitment)],
                      o.slot, OwnTip(o.tips, o.commitment))
  {
    OutcomeAge(core.windows[At(o.commitment)], o);
    ObservedWindow(core, o, o.commitment);
  }

  lemma FoundIsObserved(
      core: Core, c: Commitment, key: Fingerprint, status: nat, slot: Option<nat>, tips: Tips, at: Time)
    requires 200 <= status <= 299
    ensures ProcessedJob(core, KeyedJob(c, key, status, Object(false, Value(slot)), tips, at))
         == Observed(Expired(core, at), Observation(key, c, true, slot, tips, at))
  {
  }

  lemma FoundEntry(core: Core, o: Observation)
    requires o.found && o.key in Observed(core, o).state
    ensures Observed(core, o).state[o.key] == Entry(Found(o.at), o.commitment, o.at)
  {
    ObservedEntry(core, o);
  }

  /** A 2xx with a result is a find; a key that stays resident is then found, as of the job. */
  lemma FoundJob(
      core: Core, c: Commitment, key: Fingerprint, status: nat, slot: Option<nat>, tips: Tips, at: Time)
    requires 200 <= status <= 299
    ensures var before := Expired(core, at);
      var after := ProcessedJob(core, KeyedJob(c, key, status, Object(false, Value(slot)), tips, at));
      && CountsOne(before, after, c, 1, 0, 0, 0)
      && CountsAge(before.windows[At(c)], after.windows[At(c)], slot, OwnTip(tips, c))
      && (key in after.state ==> after.state[key] == Entry(Found(at), c, at))
  {
    var before := Expired(core, at);
    var o := Observation(key, c, true, slot, tips, at);
    FoundIsObserved(core, c, key, status, slot, tips, at);
    ObservedCounts(before, o);
    ObservedAge(before, o);
    if key in Observed(before, o).state {
      FoundEntry(before, o);
    }
  }

  lemma NullIsObserved(core: Core, c: Commitment, key: Fingerprint, status: nat, tips: Tips, at: Time)
    requires 200 <= status <= 299
    ensures ProcessedJob(core, KeyedJob(c, key, status, Object(false, Null), tips, at))
         == Observed(Expired(core, at), Observation(key, c, false, None, tips, at))
  {
  }

  /** A 2xx with a null result counts one poll; only a key never found since it came is still null. */
  lemma NullJob(core: Core, c: Commitment, key: Fingerprint, status: nat, tips: Tips, at: Time)
    requires 200 <= status <= 299
    ensures var before := Expired(core, at);
      var after := ProcessedJob(core, KeyedJob(c, key, status, Object(false, Null), tips, at));
      && CountsOne(before, after, c, 0, 1, 0, 0)
      && (key in after.state ==> after.state[key].commitment == c && after.state[key].lastSeen == at)
      && (key in after.state && key !in before.state ==> after.state[key].lifecycle == NullSeen(at, 1))
      && (key in after.state && key in before.state && before.state[key].lifecycle.NullSeen? ==>
            after.state[key].lifecycle
            == NullSeen(before.state[key].lifecycle.firstNullAt, before.state[key].lifecycle.polls + 1))
      && (key in after.state && key in before.state && before.state[key].lifecycle.Found? ==>
            after.state[key].lifecycle == before.state[key].lifecycle)
  {
    var before := Expired(core, at);
    var o := Observation(key, c, false, None, tips, at);
    NullIsObserved(core, c, key, status, tips, at);
    ObservedCounts(before, o);
    if key in Observed(before, o).state {
      ObservedEntry(before, o);
    }
  }

  lemma ErroredCounts(core: Core, c: Commitment, kind: ErrorKind)
    ensures CountsOne(core, Errored(core, c, kind), c, 0, 0, if kind == Rpc then 1 else 0, if kind == Rpc then 0 else 1)
    ensures Errored(core, c, kind).state == core.state
  {
  }

  /** A status outside 2xx, or an error member, is the provider's error; nothing is learnt about the key. */
  lemma RpcErrorJob(
      core: Core, c: Commitment, key: Fingerprint, status: nat, response: ResponseJson, tips: Tips, at: Time)
    requires !(200 <= status <= 299) || (response.Object? && response.hasError)
    ensures var before, after := Expired(core, at), ProcessedJob(core, KeyedJob(c, key, status, response, tips, at));
            CountsOne(before, after, c, 0, 0, 1, 0) && after.state == before.state
  {
    ErroredCounts(Expired(core, at), c, Rpc);
  }

  /** A 2xx that is no JSON object, or has neither error nor result, cannot be read. */
  lemma ParseErrorJob(
      core: Core, c: Commitment, key: Fingerprint, status: nat, response: ResponseJson, tips: Tips, at: Time)
    requires 200 <= status <= 299 && response in {NotAnObject, Object(false, Missing)}
    ensures var before, after := Expired(core, at), ProcessedJob(core, KeyedJob(c, key, status, response, tips, at));
            CountsOne(before, after, c, 0, 0, 0, 1) && after.state == before.state
  {
    ErroredCounts(Expired(core, at), c, Parse);
  }

  /** So is a request that is no JSON, under no commitment, or without a fingerprint, under its own. */
  lemma UnreadableRequestJob(
      core: Core, request: RequestJson, status: nat, response: ResponseJson, tips: Tips, at: Time)
    requires request.BadJson? || request.key.None?
    ensures var before := Expired(core, at);
            var after := ProcessedJob(core, Job(Single(request, status, response, tips), at));
            && CountsOne(before, after, if request.BadJson? then Unknown else request.commitment, 0, 0, 0, 1)
            && after.state == before.state
  {
    ErroredCounts(Expired(core, at), if request.BadJson? then Unknown else request.commitment, Parse);
  }

  // ----- batches

  lemma {:induction false} BatchCallsMeans(recognised: seq<Commitment>, eligible: nat, d: Commitment)
    ensures multiset(BatchCalls(recognised, eligible))[d]
         == multiset(recognised)[d] + (if d == Unknown && eligible > |recognised| then eligible - |recognised| else 0)
    decreases eligible - |recognised|
  {
    if |recognised| < eligible {
      BatchCallsMeans(recognised + [Unknown], eligible, d);
    }
  }

  lemma {:induction false} BatchedWindow(core: Core, calls: seq<Commitment>, d: Commitment)
    ensures var w, n := core.windows[At(d)], multiset(calls)[d];
            Batched(core, calls).windows[At(d)]
            == w.(logical := w.logical + n, unsupportedBatch := w.unsupportedBatch + n)
    decreases |calls|
  {
    if calls != [] {
      var rest := core.(windows := Put(core.windows, calls[0], CountBatch(core.windows[At(calls[0])])));
      BatchedWindow(rest, calls[1..], d);
      assert calls == [calls[0]] + calls[1..];
    }
  }

  /** Every recognised call of a batch is counted under its own commitment, the missing ones under Unknown. */
  lemma BatchJob(core: Core, recognised: seq<Commitment>, eligible: nat, at: Time, d: Commitment)
    ensures var before, after := Expired(core, at), ProcessedJob(core, Job(Batch(recognised, eligible), at));
            var n := multiset(recognised)[d]
                     + (if d == Unknown && eligible > |recognised| then eligible - |recognised| else 0);
            var w := before.windows[At(d)];
            && after.windows[At(d)] == w.(logical := w.logical + n, unsupportedBatch := w.unsupportedBatch + n)
            && after.state == before.state
  {
    BatchCallsMeans(recognised, eligible, d);
    BatchedWindow(Expired(core, at), BatchCalls(recognised, eligible), d);
    BatchedTotal(Handled, Expired(core, at), BatchCalls(recognised, eligible));
  }

  // ----- flushes

  /** The window of `c` has something to report. */
  ghost predicate HasNews(core: Core, q: Quality, c: Commitment) {
    var w := core.windows[At(c)];
    || w.logical > 0 || w.capacityEvictions > 0 || w.ttlExpirations > 0
    || (c == Unknown && q != Quality(0, 0, 0, 0, 0))
  }

  ghost function EventOf(core: Core, q: Quality, c: Commitment): seq<Event> {
    var w := core.windows[At(c)];
    if !HasNews(core, q, c) then []
    else [Event(c, w.(logical := w.logical + (if c == Unknown then q.droppedLogical else 0)),
                if c == Unknown then q.(droppedLogical := 0) else Quality(0, 0, 0, 0, 0),
                |core.state|, core.capacity)]
  }

  lemma FlushesMeans(ws: Windows, i: nat, core: Core, q: Quality, c: Commitment)
    requires i < 4 && i == At(c) && ws[i] == core.windows[i]
    ensures Flushes(ws, i, q) <==> HasNews(core, q, c)
  {
  }

  lemma EventForMeans(ws: Windows, i: nat, core: Core, q: Quality, c: Commitment)
    requires i < 4 && i == At(c) && ws[i] == core.windows[i] && HasNews(core, q, c)
    ensures [EventFor(ws, i, q, |core.state|, core.capacity)] == EventOf(core, q, c)
  {
  }

  lemma FlushOne(ws: Windows, i: nat, q: Quality, entries: nat, capacity: nat, sent: seq<Event>)
    requires i < 4
    ensures FlushedFrom(ws, i, q, entries, capacity, sent)
         == if !Flushes(ws, i, q) then FlushedFrom(ws, i + 1, q, entries, capacity, sent)
            else FlushedFrom(ws[i := ZERO_WINDOW], i + 1, q, entries, capacity,
                             sent + [EventFor(ws, i, q, entries, capacity)])
  {
  }

  ghost function Cleared(ws: Windows, i: nat, core: Core, q: Quality, c: Commitment): Windows
    requires i < 4
  {
    if HasNews(core, q, c) then ws[i := ZERO_WINDOW] else ws
  }

  lemma FlushStep(ws: Windows, i: nat, core: Core, q: Quality, sent: seq<Event>, c: Commitment)
    requires i < 4 && i == At(c) && ws[i] == core.windows[i]
    ensures FlushedFrom(ws, i, q, |core.state|, core.capacity, sent)
         == FlushedFrom(Cleared(ws, i, core, q, c), i + 1, q, |core.state|, core.capacity, sent + EventOf(core, q, c))
  {
    FlushesMeans(ws, i, core, q, c);
    FlushOne(ws, i, q, |core.state|, core.capacity, sent);
    if HasNews(core, q, c) {
      EventForMeans(ws, i, core, q, c);
    } else {
      assert sent + [] == sent;
    }
  }

  /** One event per window with something to report, in the order of the commitments, and no other. */
  lemma FlushSendsExactly(core: Core, q: Quality)
    ensures Flushed(core, q).1
         == EventOf(core, q, Processed) + EventOf(core, q, Confirmed) + EventOf(core, q, Finalized)
            + EventOf(core, q, Unknown)
  {
    var i0 := At(Processed);
    var i1, i2, i3 := i0 + 1, i0 + 2, i0 + 3;
    var ws0 := core.windows;
    var ws1 := Cleared(ws0, i0, core, q, Processed);
    var ws2 := Cleared(ws1, i1, core, q, Confirmed);
    var ws3 := Cleared(ws2, i2, core, q, Finalized);
    var e0, e1, e2 := EventOf(core, q, Processed), EventOf(core, q, Confirmed), EventOf(core, q, Finalized);
    FlushStep(ws0, i0, core, q, [], Processed);
    assert [] + e0 == e0;
    FlushStep(ws1, i1, core, q, e0, Confirmed);
    FlushStep(ws2, i2, core, q, e0 + e1, Finalized);
    FlushStep(ws3, i3, core, q, e0 + e1 + e2, Unknown);
    FlushDone(Cleared(ws3, i3, core, q, Unknown), i3 + 1, core, q, e0 + e1 + e2 + EventOf(core, q, Unknown));
    FlushFromFirst(core, q, i0);
  }

  lemma FlushFromFirst(core: Core, q: Quality, first: nat)
    requires first == FIRST
    ensures Flushed(core, q).1 == FlushedFrom(core.windows, first, q, |core.state|, core.capacity, []).1
  {
  }

  lemma FlushDone(ws: Windows, i: nat, core: Core, q: Quality, sent: seq<Event>)
    requires i == 4
    ensures FlushedFrom(ws, i, q, |core.state|, core.capacity, sent).1 == sent
  {
  }
}
