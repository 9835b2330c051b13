/**
  * `AnalyzerCore` of src/historical.rs: a map of fingerprint states, an ordered set of
  * (last seen, fingerprint) stamps beside it, and the counter windows, all updated in place.
  */
module Analyzer {
  import opened Common
  import opened Historical

  datatype ParsedOutcome = FoundAt(slot: Option<nat>) | NullResult | RpcError | ParseError

  datatype ResultMember = Missing | Null | Value(slot: Option<nat>)

  /** What the analyzer looks at in a response body. */
  datatype ResponseJson = NotAnObject | Object(hasError: bool, result: ResultMember)

  function ParseResponse(status: nat, body: ResponseJson): ParsedOutcome {
    if !(200 <= status < 300) then RpcError
    else match body
      case NotAnObject => ParseError
      case Object(hasError, result) =>
        if hasError then RpcError
        else match result
          case Null => NullResult
          case Value(slot) => FoundAt(slot)
          case Missing => ParseError
  }

  /** What the analyzer looks at in a single request: nothing if it is not JSON. */
  datatype RequestJson = BadJson | Request(commitment: Commitment, key: Option<Fingerprint>)

  datatype Class =
    | NotHistorical
    | Single(request: RequestJson, status: nat, response: ResponseJson, tips: Tips)
    | Batch(recognised: seq<Commitment>, eligible: nat)

  datatype Job = Job(kind: Class, at: Time)

  /** The calls a request is offered as. */
  function EligibleCalls(kind: Class): nat {
    match kind
    case NotHistorical => 0
    case Single(_, _, _, _) => 1
    case Batch(_, eligible) => eligible
  }

  ghost function ProcessedSingle(core: Core, c: Class, at: Time): Core
    requires c.Single?
  {
    match c.request
    case BadJson => Errored(core, Unknown, Parse)
    case Request(commitment, None) => Errored(core, commitment, Parse)
    case Request(commitment, Some(key)) =>
      match ParseResponse(c.status, c.response)
      case RpcError => Errored(core, commitment, Rpc)
      case ParseError => Errored(core, commitment, Parse)
      case NullResult => Observed(core, Observation(key, commitment, false, None, c.tips, at))
      case FoundAt(slot) => Observed(core, Observation(key, commitment, true, slot, c.tips, at))
  }

  ghost function ProcessedJob(core: Core, job: Job): Core {
    var core := Expired(core, job.at);
    match job.kind
    case NotHistorical => core
    case Batch(recognised, eligible) => Batched(core, BatchCalls(recognised, eligible))
    case Single(_, _, _, _) => ProcessedSingle(core, job.kind, job.at)
  }

  lemma IndexAfterRemove(state: States, k: Fingerprint)
    requires k in state
    ensures Index(state - {k}) == Index(state) - {StampOf(state, k)}
  {
    var left := state - {k};
    forall x | x in Index(state) - {StampOf(state, k)}
      ensures x in Index(left)
    {
      var j :| j in state && x == StampOf(state, j);
      assert j in left && StampOf(left, j) == x;
    }
  }

  lemma IndexAfterInsert(state: States, k: Fingerprint, e: Entry)
    requires k !in state
    ensures Index(state[k := e]) == Index(state) + {(e.lastSeen, k)}
  {
    var more := state[k := e];
    forall x | x in Index(state) + {(e.lastSeen, k)}
      ensures x in Index(more)
    {
      if x in Index(state) {
        var j :| j in state && x == StampOf(state, j);
        assert StampOf(more, j) == x;
      } else {
        assert StampOf(more, k) == x;
      }
    }
  }

  lemma EmptyIndex(state: States)
    ensures Index(state) == {} <==> state.Keys == {}
  {
    if k :| k in state.Keys {
      assert StampOf(state, k) in Index(state);
    }
  }

  lemma IndexFirst(state: States, x: Stamp)
    requires IsFirst(Index(state), x)
    ensures state.Keys != {} && x.1 == Oldest(state) && x == StampOf(state, x.1)
  {
    var k :| k in state && x == StampOf(state, k);
    forall j | j in state
      ensures NotAfter(StampOf(state, k), StampOf(state, j))
    {
      assert StampOf(state, j) in Index(state);
    }
    OldestUnique(state, k);
  }

  class AnalyzerCore {
    var state: States
    var lru: set<Stamp>
    var windows: Windows
    const capacity: nat
    const ttl: nat

    /** The ordered set is exactly the stamps of the map. */
    ghost predicate Valid()
      reads this
    {
      lru == Index(state)
    }

    ghost function Abs(): Core
      reads this
    {
      Core(state, windows, capacity, ttl)
    }

    constructor (capacity: nat, ttl: nat)
      ensures Valid() && Abs() == Core(map[], ZERO_WINDOWS, capacity, ttl)
    {
      this.capacity := capacity;
      this.ttl := ttl;
      state := map[];
      lru := {};
      windows := ZERO_WINDOWS;
    }

    /** Pops the first stamp. The map always holds its key, because the index agrees with the map. */
    method EvictOldest(reason: EvictionReason)
      requires Valid()
      modifies this
      ensures Valid()
      ensures old(state.Keys) == {} ==> Abs() == old(Abs())
      ensures old(state.Keys) != {} ==> Abs() == Evicted(old(Abs()), reason) && |state| == old(|state|) - 1
    {
      if lru == {} {
        EmptyIndex(state);
        return;
      }
      FirstExists(lru);
      var first :| first in lru && forall y | y in lru :: NotAfter(first, y);
      assert IsFirst(lru, first);
      IndexFirst(state, first);
      EvictedShrinks(Abs(), reason);
      var key := first.1;
      var entry := state[key];
      IndexAfterRemove(state, key);
      lru := lru - {first};
      state := state - {key};
      windows := Put(windows, entry.commitment,
                     CountEviction(windows[At(entry.commitment)], reason, entry.lifecycle));
    }

    method Expire(now: Time)
      requires Valid()
      modifies this
      ensures Valid() && Abs() == Expired(old(Abs()), now)
    {
      while lru != {}
        invariant Valid()
        invariant Abs().capacity == old(Abs()).capacity && Abs().ttl == old(Abs()).ttl
        invariant Expired(old(Abs()), now) == Expired(Abs(), now)
        decreases |state|
      {
        FirstExists(lru);
        var first :| first in lru && forall y | y in lru :: NotAfter(first, y);
        assert IsFirst(lru, first);
        IndexFirst(state, first);
        if Elapsed(now, first.0) < ttl {
          return;
        }
        EvictOldest(Ttl);
      }
      EmptyIndex(state);
    }

    method Transition(key: Fingerprint, commitment: Commitment, found: bool, now: Time)
      requires Valid()
      modifies this
      ensures Valid() && Abs() == Transitioned(old(Abs()), key, commitment, found, now)
    {
      var previous := LifecycleIn(state, key);
      if key in state {
        IndexAfterRemove(state, key);
        lru := lru - {(state[key].lastSeen, key)};
        state := state - {key};
      }
      windows := Put(windows, commitment,
                     CountTransition(windows[At(commitment)], TransitionOf(previous, found, now)));
      var entry := Entry(NextLifecycle(previous, found, now), commitment, now);
      IndexAfterInsert(state, key, entry);
      state := state[key := entry];
      lru := lru + {(now, key)};
      assert state == old(state)[key := entry];
      while |state| > capacity
        invariant Valid()
        invariant Transitioned(old(Abs()), key, commitment, found, now) == Trimmed(Abs())
        decreases |state|
      {
        EvictOldest(Capacity);
      }
    }

    method ProcessBatch(recognised: seq<Commitment>, eligible: nat)
      requires Valid()
      modifies this`windows
      ensures Valid() && Abs() == Batched(old(Abs()), BatchCalls(recognised, eligible))
    {
      var calls := BatchCalls(recognised, eligible);
      for i := 0 to |calls|
        invariant Batched(old(Abs()), calls) == Batched(Abs(), calls[i..])
      {
        windows := Put(windows, calls[i], CountBatch(windows[At(calls[i])]));
        assert calls[i..][1..] == calls[i + 1..];
      }
    }

    method ProcessSingle(c: Class, at: Time)
      requires Valid() && c.Single?
      modifies this
      ensures Valid() && Abs() == ProcessedSingle(old(Abs()), c, at)
    {
      match c.request {
        case BadJson => windows := Put(windows, Unknown, CountError(windows[At(Unknown)], Parse));
        case Request(commitment, None) =>
          windows := Put(windows, commitment, CountError(windows[At(commitment)], Parse));
        case Request(commitment, Some(key)) =>
          var outcome := ParseResponse(c.status, c.response);
          match outcome {
            case RpcError => windows := Put(windows, commitment, CountError(windows[At(commitment)], Rpc));
            case ParseError => windows := Put(windows, commitment, CountError(windows[At(commitment)], Parse));
            case NullResult =>
              windows := Put(windows, commitment, CountNull(windows[At(commitment)]));
              Transition(key, commitment, false, at);
            case FoundAt(slot) =>
              var w := CountFound(windows[At(commitment)]);
              windows := Put(windows, commitment, CountSlotAge(w, slot, TipFor(c.tips, commitment)));
              Transition(key, commitment, true, at);
          }
      }
    }

    method Process(job: Job)
      requires Valid()
      modifies this
      ensures Valid() && Abs() == ProcessedJob(old(Abs()), job)
    {
      Expire(job.at);
      match job.kind {
        case NotHistorical =>
        case Single(_, _, _, _) => ProcessSingle(job.kind, job.at);
        case Batch(recognised, eligible) => ProcessBatch(recognised, eligible);
      }
    }

    method Flush(q: Quality) returns (events: seq<Event>)
      requires Valid()
      modifies this`windows
      ensures Valid() && Abs() == Flushed(old(Abs()), q).0 && events == Flushed(old(Abs()), q).1
    {
      events := [];
      var i := FIRST;
      while i < 4
        invariant 0 <= i <= 4
        invariant FlushedFrom(old(windows), FIRST, q, |state|, capacity, [])
               == FlushedFrom(windows, i, q, |state|, capacity, events)
      {
        if Flushes(windows, i, q) {
          events := events + [EventFor(windows, i, q, |state|, capacity)];
          windows := windows[i := ZERO_WINDOW];
        }
        i := i + 1;
      }
    }
  }
}
