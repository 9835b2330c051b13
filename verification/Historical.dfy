/**
  * The getTransaction analyzer of src/historical.rs as values: fingerprint states, their
  * lifecycle, the least-recently-seen order, the counter windows, and what each analyzer
  * operation does to them. Fingerprints are opaque keys; times are nanoseconds; counters do
  * not overflow. `AnalyzerCore` is the imperative code proved against these functions.
  */
module Historical {
  import opened Common

  type Time = int

  const SECOND: nat := 1_000_000_000

  /** `now.saturating_duration_since(earlier)` */
  function Elapsed(now: Time, earlier: Time): (d: nat)
    ensures earlier <= now ==> earlier + d == now
    ensures now < earlier ==> d == 0
  {
    if now >= earlier then now - earlier else 0
  }

  datatype Fingerprint = Fingerprint(a: nat, b: nat)

  datatype Commitment = Processed | Confirmed | Finalized | Unknown

  datatype Lifecycle =
    | NullSeen(firstNullAt: Time, polls: nat)
    | Found(lastFoundAt: Time)

  datatype Entry = Entry(lifecycle: Lifecycle, commitment: Commitment, lastSeen: Time)

  datatype EvictionReason = Capacity | Ttl

  datatype ErrorKind = Rpc | Parse

  /** Network tips at the time of the request, where known. */
  datatype Tips = Tips(processed: Option<nat>, confirmed: Option<nat>, finalized: Option<nat>)

  // ----- buckets

  function Position(value: nat, uppers: seq<nat>): (i: nat)
    ensures i <= |uppers|
    ensures i < |uppers| ==> value < uppers[i]
    ensures forall j | 0 <= j < i :: value >= uppers[j]
  {
    if uppers == [] then 0 else if value < uppers[0] then 0 else 1 + Position(value, uppers[1..])
  }

  function SlotAgeBucket(age: nat): (i: nat)
    ensures i < 9
    ensures (i <= 0 <==> age <= 149) && (i <= 1 <==> age <= 749) && (i <= 2 <==> age <= 8_999)
    ensures (i <= 3 <==> age <= 53_999) && (i <= 4 <==> age <= 215_999) && (i <= 5 <==> age <= 431_999)
    ensures (i <= 6 <==> age <= 2_159_999) && (i <= 7 <==> age <= 4_319_999)
  {
    var uppers := [150, 750, 9_000, 54_000, 216_000, 432_000, 2_160_000, 4_320_000];
    assert uppers[0] == 150 && uppers[1] == 750 && uppers[2] == 9_000 && uppers[3] == 54_000;
    assert uppers[4] == 216_000 && uppers[5] == 432_000 && uppers[6] == 2_160_000 && uppers[7] == 4_320_000;
    Position(age, uppers)
  }

  function PollsBucket(polls: nat): (i: nat)
    ensures i < 6 && (i == 0 <==> polls == 0) && (i == 1 <==> polls == 1) && (i == 2 <==> polls == 2)
    ensures (i == 3 <==> 3 <= polls <= 5) && (i == 4 <==> 6 <= polls <= 10)
  {
    if polls <= 2 then polls else if polls <= 5 then 3 else if polls <= 10 then 4 else 5
  }

  function TimeToFoundBucket(elapsed: nat): (i: nat)
    ensures i < 6
    ensures (i <= 0 <==> elapsed < 1_000_000_000) && (i <= 1 <==> elapsed < 2_000_000_000)
    ensures (i <= 2 <==> elapsed < 5_000_000_000) && (i <= 3 <==> elapsed < 15_000_000_000)
    ensures i <= 4 <==> elapsed < 60_000_000_000
  {
    var uppers := [1 * SECOND, 2 * SECOND, 5 * SECOND, 15 * SECOND, 60 * SECOND];
    assert uppers[0] < uppers[1] < uppers[2] < uppers[3] < uppers[4];
    Position(elapsed, uppers)
  }

  function ReuseBucket(elapsed: nat): (i: nat)
    ensures i < 5
    ensures (i <= 0 <==> elapsed < 300_000_000_000) && (i <= 1 <==> elapsed < 3_600_000_000_000)
    ensures (i <= 2 <==> elapsed < 86_400_000_000_000) && (i <= 3 <==> elapsed < 172_800_000_000_000)
  {
    var uppers := [300 * SECOND, 3_600 * SECOND, 86_400 * SECOND, 172_800 * SECOND];
    assert uppers[0] < uppers[1] < uppers[2] < uppers[3];
    Position(elapsed, uppers)
  }

  // ----- windows

  datatype Window = Window(
    logical: nat, analyzed: nat,
    found: nat, nulls: nat, rpcErrors: nat, parseErrors: nat,
    firstFound: nat, firstNull: nat, nullRepeat: nat, nullToFound: nat, foundRepeat: nat, foundToNull: nat,
    slotAge: seq<nat>, slotAgeUnknown: nat, slotAgeTipBehind: nat,
    pollsBeforeFound: seq<nat>, timeToFound: seq<nat>, foundReuse: seq<nat>,
    unsupportedBatch: nat,
    capacityEvictions: nat, ttlExpirations: nat, nullCapacityEvictions: nat, nullTtlExpirations: nat)

  function Zeros(n: nat): (h: seq<nat>)
    ensures |h| == n && forall i | 0 <= i < n :: h[i] == 0
  {
    seq(n, _ => 0)
  }

  const ZERO_WINDOW := Window(
    0, 0, 0, 0, 0, 0, 0, 0, 0, 0, 0, 0,
    Zeros(9), 0, 0, Zeros(6), Zeros(6), Zeros(5),
    0, 0, 0, 0, 0)

  predicate Shaped(w: Window) {
    |w.slotAge| == 9 && |w.pollsBeforeFound| == 6 && |w.timeToFound| == 6 && |w.foundReuse| == 5
  }

  type Shape = w: Window | Shaped(w) witness ZERO_WINDOW

  function Bump(h: seq<nat>, i: nat): seq<nat>
    requires i < |h|
  {
    h[i := h[i] + 1]
  }

  /** The window is skipped by a flush. */
  predicate IsEmpty(w: Window) {
    w.logical == 0 && w.capacityEvictions == 0 && w.ttlExpirations == 0
  }

  function CountError(w: Shape, kind: ErrorKind): Shape {
    var w := w.(logical := w.logical + 1, analyzed := w.analyzed + 1);
    match kind
    case Rpc => w.(rpcErrors := w.rpcErrors + 1)
    case Parse => w.(parseErrors := w.parseErrors + 1)
  }

  function CountBatch(w: Shape): Shape {
    w.(logical := w.logical + 1, unsupportedBatch := w.unsupportedBatch + 1)
  }

  function CountNull(w: Shape): Shape {
    w.(logical := w.logical + 1, analyzed := w.analyzed + 1, nulls := w.nulls + 1)
  }

  function CountFound(w: Shape): Shape {
    w.(logical := w.logical + 1, analyzed := w.analyzed + 1, found := w.found + 1)
  }

  function TipFor(tips: Tips, c: Commitment): Option<nat> {
    match c
    case Processed => tips.processed
    case Confirmed => tips.confirmed
    case Finalized => tips.finalized
    case Unknown => None
  }

  function CountSlotAge(w: Shape, slot: Option<nat>, tip: Option<nat>): Shape {
    if slot.Some? && tip.Some? then
      if slot.value <= tip.value
      then w.(slotAge := Bump(w.slotAge, SlotAgeBucket(tip.value - slot.value)))
      else w.(slotAgeTipBehind := w.slotAgeTipBehind + 1)
    else w.(slotAgeUnknown := w.slotAgeUnknown + 1)
  }

  function CountEviction(w: Shape, reason: EvictionReason, lifecycle: Lifecycle): Shape {
    var isNull := if lifecycle.NullSeen? then 1 else 0;
    match reason
    case Capacity =>
      w.(capacityEvictions := w.capacityEvictions + 1, nullCapacityEvictions := w.nullCapacityEvictions + isNull)
    case Ttl =>
      w.(ttlExpirations := w.ttlExpirations + 1, nullTtlExpirations := w.nullTtlExpirations + isNull)
  }

  // ----- the lifecycle of one key

  datatype Transition =
    | FirstObservationFound
    | FirstObservationNull
    | NullRepeat
    | NullToFound(polls: nat, elapsed: nat)
    | FoundRepeat(elapsed: nat)
    | FoundToNullRegression

  function TransitionOf(previous: Option<Lifecycle>, found: bool, now: Time): Transition {
    match previous
    case None => if found then FirstObservationFound else FirstObservationNull
    case Some(NullSeen(first, polls)) => if found then NullToFound(polls, Elapsed(now, first)) else NullRepeat
    case Some(Found(last)) => if found then FoundRepeat(Elapsed(now, last)) else FoundToNullRegression
  }

  function NextLifecycle(previous: Option<Lifecycle>, found: bool, now: Time): Lifecycle {
    if found then Found(now)
    else match previous
      case None => NullSeen(now, 1)
      case Some(NullSeen(first, polls)) => NullSeen(first, polls + 1)
      case Some(Found(last)) => Found(last)
  }

  function CountTransition(w: Shape, t: Transition): Shape {
    match t
    case FirstObservationFound =>
      w.(firstFound := w.firstFound + 1, pollsBeforeFound := Bump(w.pollsBeforeFound, 0))
    case FirstObservationNull => w.(firstNull := w.firstNull + 1)
    case NullRepeat => w.(nullRepeat := w.nullRepeat + 1)
    case NullToFound(polls, elapsed) =>
      w.(nullToFound := w.nullToFound + 1,
         pollsBeforeFound := Bump(w.pollsBeforeFound, PollsBucket(polls)),
         timeToFound := Bump(w.timeToFound, TimeToFoundBucket(elapsed)))
    case FoundRepeat(elapsed) =>
      w.(foundRepeat := w.foundRepeat + 1, foundReuse := Bump(w.foundReuse, ReuseBucket(elapsed)))
    case FoundToNullRegression => w.(foundToNull := w.foundToNull + 1)
  }

  // ----- the least-recently-seen order

  type Stamp = (Time, Fingerprint)

  /** Lexicographic: time, then the two halves of the fingerprint. */
  predicate NotAfter(x: Stamp, y: Stamp) {
    || x.0 < y.0
    || (x.0 == y.0 && x.1.a < y.1.a)
    || (x.0 == y.0 && x.1.a == y.1.a && x.1.b <= y.1.b)
  }

  type States = map<Fingerprint, Entry>

  function StampOf(state: States, k: Fingerprint): Stamp
    requires k in state
  {
    (state[k].lastSeen, k)
  }

  /** The index the analyzer keeps beside the map. */
  function Index(state: States): set<Stamp> {
    set k | k in state :: StampOf(state, k)
  }

  ghost predicate IsFirst(s: set<Stamp>, x: Stamp) {
    x in s && forall y | y in s :: NotAfter(x, y)
  }

  lemma {:induction false} FirstExists(s: set<Stamp>)
    requires s != {}
    ensures exists x :: IsFirst(s, x)
    decreases |s|
  {
    var x :| x in s;
    var rest := s - {x};
    if rest == {} {
      assert s == {x};
      assert IsFirst(s, x);
    } else {
      FirstExists(rest);
      var y :| IsFirst(rest, y);
      assert forall z | z in s :: z == x || z in rest;
      if NotAfter(x, y) {
        assert IsFirst(s, x);
      } else {
        assert IsFirst(s, y);
      }
    }
  }

  /** The key seen least recently, ties broken by fingerprint. */
  ghost function Oldest(state: States): (k: Fingerprint)
    requires state.Keys != {}
    ensures k in state
    ensures forall j | j in state :: NotAfter(StampOf(state, k), StampOf(state, j))
    ensures forall j | j in state :: state[k].lastSeen <= state[j].lastSeen
    ensures forall j | j in state && state[j].lastSeen == state[k].lastSeen :: k.a < j.a || (k.a == j.a && k.b <= j.b)
  {
    var some :| some in state.Keys;
    assert StampOf(state, some) in Index(state);
    FirstExists(Index(state));
    var x :| IsFirst(Index(state), x);
    assert forall j | j in state :: StampOf(state, j) in Index(state);
    x.1
  }

  lemma OldestUnique(state: States, k: Fingerprint)
    requires state.Keys != {}
    requires k in state && forall j | j in state :: NotAfter(StampOf(state, k), StampOf(state, j))
    ensures k == Oldest(state)
  {
    var o := Oldest(state);
    assert NotAfter(StampOf(state, k), StampOf(state, o)) && NotAfter(StampOf(state, o), StampOf(state, k));
  }

  // ----- the analyzer as a value

  type Windows = ws: seq<Shape> | |ws| == 4 witness [ZERO_WINDOW, ZERO_WINDOW, ZERO_WINDOW, ZERO_WINDOW]

  const ZERO_WINDOWS: Windows := [ZERO_WINDOW, ZERO_WINDOW, ZERO_WINDOW, ZERO_WINDOW]

  datatype Core = Core(state: States, windows: Windows, capacity: nat, ttl: nat)

  function At(c: Commitment): (i: nat)
    ensures i < 4
  {
    match c
    case Processed => 0
    case Confirmed => 1
    case Finalized => 2
    case Unknown => 3
  }

  function Put(ws: Windows, c: Commitment, w: Shape): Windows {
    ws[At(c) := w]
  }

  ghost function Evicted(core: Core, reason: EvictionReason): Core
    requires core.state.Keys != {}
  {
    var k := Oldest(core.state);
    var e := core.state[k];
    core.(state := core.state - {k},
          windows := Put(core.windows, e.commitment,
                         CountEviction(core.windows[At(e.commitment)], reason, e.lifecycle)))
  }

  lemma EvictedShrinks(core: Core, reason: EvictionReason)
    requires core.state.Keys != {}
    ensures |Evicted(core, reason).state| == |core.state| - 1
  {
    var k := Oldest(core.state);
    assert Evicted(core, reason).state.Keys == core.state.Keys - {k};
  }

  /** Evicts, oldest first, every entry that has gone unseen for the TTL. */
  ghost function Expired(core: Core, now: Time): Core
    decreases |core.state|
  {
    if core.state.Keys != {} && Elapsed(now, core.state[Oldest(core.state)].lastSeen) >= core.ttl then
      EvictedShrinks(core, Ttl);
      Expired(Evicted(core, Ttl), now)
    else core
  }

  /** Evicts, oldest first, until the state fits its capacity. */
  ghost function Trimmed(core: Core): Core
    decreases |core.state|
  {
    if |core.state| > core.capacity then
      assert core.state.Keys != {};
      EvictedShrinks(core, Capacity);
      Trimmed(Evicted(core, Capacity))
    else core
  }

  datatype Observation = Observation(
    key: Fingerprint, commitment: Commitment, found: bool, slot: Option<nat>, tips: Tips, at: Time)

  function LifecycleIn(state: States, k: Fingerprint): Option<Lifecycle> {
    if k in state then Some(state[k].lifecycle) else None
  }

  /** `transition`: the key moves on, becomes the most recently seen, and the state is trimmed. */
  ghost function Transitioned(core: Core, k: Fingerprint, c: Commitment, found: bool, now: Time): Core {
    var previous := LifecycleIn(core.state, k);
    Trimmed(core.(
      state := core.state[k := Entry(NextLifecycle(previous, found, now), c, now)],
      windows := Put(core.windows, c, CountTransition(core.windows[At(c)], TransitionOf(previous, found, now)))))
  }

  /** The counters of an observation that precede its transition. */
  function CountOutcome(w: Shape, o: Observation): Shape {
    if o.found then CountSlotAge(CountFound(w), o.slot, TipFor(o.tips, o.commitment)) else CountNull(w)
  }

  ghost function Observed(core: Core, o: Observation): Core {
    Transitioned(
      core.(windows := Put(core.windows, o.commitment, CountOutcome(core.windows[At(o.commitment)], o))),
      o.key, o.commitment, o.found, o.at)
  }

  function Errored(core: Core, c: Commitment, kind: ErrorKind): Core {
    core.(windows := Put(core.windows, c, CountError(core.windows[At(c)], kind)))
  }

  function Batched(core: Core, calls: seq<Commitment>): Core
    decreases |calls|
  {
    if calls == [] then core
    else Batched(core.(windows := Put(core.windows, calls[0], CountBatch(core.windows[At(calls[0])]))), calls[1..])
  }

  /** The calls a batch is counted under: those recognised, padded with Unknown up to the eligible count. */
  function BatchCalls(recognised: seq<Commitment>, eligible: nat): seq<Commitment>
    decreases eligible - |recognised|
  {
    if |recognised| >= eligible then recognised else BatchCalls(recognised + [Unknown], eligible)
  }

  // ----- flushing

  /** Drop and reset counters swapped out of the shared atomics by a flush. */
  datatype Quality = Quality(droppedLogical: nat, queueFull: nat, byteBudget: nat, oversized: nat, resets: nat)

  datatype Event = Event(commitment: Commitment, window: Shape, quality: Quality, entries: nat, capacity: nat)

  const NO_QUALITY := Quality(0, 0, 0, 0, 0)

  predicate QualityPresent(q: Quality) {
    q.droppedLogical + q.queueFull + q.byteBudget + q.oversized + q.resets > 0
  }

  function ForIndex(i: nat): (c: Commitment)
    requires i < 4
    ensures At(c) == i
  {
    if i == 0 then Processed else if i == 1 then Confirmed else if i == 2 then Finalized else Unknown
  }

  predicate Flushes(ws: Windows, i: nat, q: Quality)
    requires i < 4
  {
    !IsEmpty(ws[i]) || (i == 3 && QualityPresent(q))
  }

  function EventFor(ws: Windows, i: nat, q: Quality, entries: nat, capacity: nat): Event
    requires i < 4
  {
    if i == 3
    then Event(Unknown, ws[3].(logical := ws[3].logical + q.droppedLogical), q.(droppedLogical := 0), entries, capacity)
    else Event(ForIndex(i), ws[i], NO_QUALITY, entries, capacity)
  }

  /** Flushes windows `i`, `i + 1`, ... after the events in `sent`. */
  function FlushedFrom(
      ws: Windows, i: nat, q: Quality, entries: nat, capacity: nat, sent: seq<Event>): (Windows, seq<Event>)
    requires i <= 4
    decreases 4 - i
  {
    if i == 4 then (ws, sent)
    else if !Flushes(ws, i, q) then FlushedFrom(ws, i + 1, q, entries, capacity, sent)
    else FlushedFrom(ws[i := ZERO_WINDOW], i + 1, q, entries, capacity, sent + [EventFor(ws, i, q, entries, capacity)])
  }

  const FIRST: nat := At(Processed)

  function Flushed(core: Core, q: Quality): (Core, seq<Event>) {
    var (ws, es) := FlushedFrom(core.windows, FIRST, q, |core.state|, core.capacity, []);
    (core.(windows := ws), es)
  }
}
