/**
  * Hot reload (src/main.rs `watch_config`, src/health.rs `add_provider`, `remove_provider` and
  * `apply_rate_limit`): reconciling clients, health entries and rate limiters with a new
  * configuration. The provider maps are visited in an arbitrary order.
  */
module Reload {
  import opened Common
  import TB = TokenBucket

  datatype ProviderConfig = ProviderConfig(url: string, http3: bool, maxRps: Option<nat>, weight: nat)

  /** A configuration as reload sees it: providers by name, and the connection pool size. */
  datatype Config = Config(providers: map<string, ProviderConfig>, pool: nat)

  /** An outbound client is its inputs. */
  datatype Client = Client(url: string, http3: bool, pool: nat)

  type LoopId = nat

  /** A tracked provider: its background loop, which owns the health state, and its limiter. */
  datatype Entry = Entry(loop: LoopId, limiter: Option<TB.Bucket>)

  type Clients = map<string, Client>
  type Entries = map<string, Entry>

  datatype Reason = Added | PoolSizeChanged | UrlUpdated | Http3Toggled

  function RebuildReason(before: Option<ProviderConfig>, after: ProviderConfig, poolChanged: bool): Option<Reason> {
    match before
    case None => Some(Added)
    case Some(p) =>
      if poolChanged then Some(PoolSizeChanged)
      else if p.url != after.url then Some(UrlUpdated)
      else if p.http3 != after.http3 then Some(Http3Toggled)
      else None
  }

  function ClientFor(p: ProviderConfig, pool: nat): Client {
    Client(p.url, p.http3, pool)
  }

  /** A client is rebuilt exactly when it is new or one of its inputs changed, for the first reason that holds. */
  lemma RebuildExactlyWhenInputsChange(before: ProviderConfig, after: ProviderConfig, oldPool: nat, newPool: nat)
    ensures RebuildReason(None, after, oldPool != newPool) == Some(Added)
    ensures RebuildReason(Some(before), after, oldPool != newPool) == Some(PoolSizeChanged) <==> oldPool != newPool
    ensures RebuildReason(Some(before), after, oldPool != newPool) == Some(UrlUpdated)
       <==> oldPool == newPool && before.url != after.url
    ensures RebuildReason(Some(before), after, oldPool != newPool) == Some(Http3Toggled)
       <==> oldPool == newPool && before.url == after.url && before.http3 != after.http3
    ensures RebuildReason(Some(before), after, oldPool != newPool).None?
       <==> ClientFor(before, oldPool) == ClientFor(after, newPool)
  {
  }

  function Lookup(m: map<string, ProviderConfig>, name: string): Option<ProviderConfig> {
    if name in m then Some(m[name]) else None
  }

  function BuildLimiter(maxRps: Option<nat>, now: real): Option<TB.Bucket> {
    match maxRps
    case None => None
    case Some(rps) => Some(TB.Fresh(rps, now))
  }

  /** Reconciling a limiter in place: keep the token level of one that stays. */
  function AppliedLimit(limiter: Option<TB.Bucket>, maxRps: Option<nat>, now: real): Option<TB.Bucket> {
    match (maxRps, limiter)
    case (Some(rps), Some(b)) => Some(TB.Reconfigured(b, now, rps))
    case (Some(rps), None) => Some(TB.Fresh(rps, now))
    case (None, _) => None
  }

  /** The limiter enforces the configured cap, or there is none. */
  ghost predicate LimiterMatches(limiter: Option<TB.Bucket>, maxRps: Option<nat>) {
    match maxRps
    case None => limiter.None?
    case Some(rps) => limiter.Some? && limiter.value.rate == rps as real && limiter.value.capacity == rps as real
  }

  /** What reconciling may do to the token level: a new limiter starts full, a kept one is not topped up. */
  ghost predicate LevelKept(before: Option<TB.Bucket>, after: Option<TB.Bucket>, maxRps: Option<nat>, now: real) {
    maxRps.Some? && after.Some? ==>
      if before.None? then after.value.tokens == maxRps.value as real
      else TB.Valid(before.value) ==>
        var b, refilled := before.value, TB.Refilled(before.value, now);
        && after.value.tokens <= refilled.tokens <= b.tokens + TB.Span(b.last, refilled.last, b.rate)
        && (b.tokens <= maxRps.value as real ==> b.tokens <= after.value.tokens)
  }

  lemma LimitsKeepLevel(limiter: Option<TB.Bucket>, maxRps: Option<nat>, now: real)
    ensures LevelKept(limiter, AppliedLimit(limiter, maxRps, now), maxRps, now)
    ensures maxRps.Some? ==> BuildLimiter(maxRps, now).value.tokens == maxRps.value as real
  {
    if limiter.Some? && maxRps.Some? && TB.Valid(limiter.value) {
      TB.RefillBounds(limiter.value, now);
      TB.ReconfigureKeepsLevel(limiter.value, now, maxRps.value);
    }
  }

  lemma RebuiltStartsFull(rps: nat, now: real)
    ensures AppliedLimit(BuildLimiter(Some(rps), now), Some(rps), now).value.tokens == rps as real
  {
  }

  /** Every provider rebuilt or newly capped starts full; every limiter kept keeps its level. */
  ghost predicate Metered(before: Config, after: Config, now: real, entries0: Entries, entries: Entries) {
    && entries.Keys == after.providers.Keys
    && (forall n | n in entries && Rebuilt(before, after, n) && after.providers[n].maxRps.Some? ::
          entries[n].limiter.Some? && entries[n].limiter.value.tokens == after.providers[n].maxRps.value as real)
    && (forall n | n in entries && !Rebuilt(before, after, n) ::
          n in entries0
          && (OldCap(before, n) != after.providers[n].maxRps ==>
                LevelKept(entries0[n].limiter, entries[n].limiter, after.providers[n].maxRps, now))
          && (OldCap(before, n) == after.providers[n].maxRps ==> entries[n].limiter == entries0[n].limiter))
  }

  lemma LimitersMatch(limiter: Option<TB.Bucket>, maxRps: Option<nat>, now: real)
    ensures LimiterMatches(BuildLimiter(maxRps, now), maxRps)
    ensures LimiterMatches(AppliedLimit(limiter, maxRps, now), maxRps)
  {
  }

  /** The provider is new, or one of the inputs of its client changed: its URL, its protocol or the pool size. */
  ghost predicate Rebuilt(before: Config, after: Config, name: string)
    requires name in after.providers
  {
    || name !in before.providers
    || before.pool != after.pool
    || before.providers[name].url != after.providers[name].url
    || before.providers[name].http3 != after.providers[name].http3
  }

  lemma RebuiltMeans(before: Config, after: Config, name: string)
    requires name in after.providers
    ensures RebuildReason(Lookup(before.providers, name), after.providers[name], before.pool != after.pool).Some?
       <==> Rebuilt(before, after, name)
  {
  }

  ghost function LoopsOf(entries: Entries): set<LoopId> {
    set n | n in entries :: entries[n].loop
  }

  ghost function Below(n: nat): set<LoopId> {
    if n == 0 then {} else Below(n - 1) + {n - 1}
  }

  lemma {:induction false} BelowMeans(n: nat, id: LoopId)
    ensures id in Below(n) <==> id < n
  {
    if n > 0 {
      BelowMeans(n - 1, id);
    }
  }

  ghost predicate OneLoopEach(entries: Entries) {
    forall m, n | m in entries && n in entries && m != n :: entries[m].loop != entries[n].loop
  }

  /** Every loop spawned so far either serves exactly one entry or has been told to stop. */
  ghost predicate Supervised(entries: Entries, stopped: set<LoopId>, nextLoop: nat) {
    OneLoopEach(entries) && LoopsOf(entries) !! stopped && LoopsOf(entries) + stopped == Below(nextLoop)
  }

  lemma AddSupervised(entries: Entries, stopped: set<LoopId>, nextLoop: nat, name: string, e: Entry)
    requires Supervised(entries, stopped, nextLoop) && name !in entries && e.loop == nextLoop
    ensures Supervised(entries[name := e], stopped, nextLoop + 1)
  {
    var more := entries[name := e];
    BelowMeans(nextLoop, nextLoop);
    assert Below(nextLoop + 1) == Below(nextLoop) + {nextLoop};
    assert forall n | n in entries :: entries[n].loop in LoopsOf(entries);
    assert LoopsOf(more) == LoopsOf(entries) + {nextLoop} by {
      assert more[name].loop in LoopsOf(more);
      assert forall n | n in entries :: more[n].loop in LoopsOf(more);
    }
  }

  lemma RemoveSupervised(entries: Entries, stopped: set<LoopId>, nextLoop: nat, name: string)
    requires Supervised(entries, stopped, nextLoop) && name in entries
    ensures Supervised(entries - {name}, stopped + {entries[name].loop}, nextLoop)
  {
    var less := entries - {name};
    assert entries[name].loop in LoopsOf(entries);
    assert LoopsOf(less) == LoopsOf(entries) - {entries[name].loop} by {
      assert forall n | n in less :: n in entries && less[n] == entries[n];
      forall id | id in LoopsOf(entries) && id != entries[name].loop
        ensures id in LoopsOf(less)
      {
        var n :| n in entries && entries[n].loop == id;
        assert less[n].loop == id;
      }
    }
  }

  lemma RelimitSupervised(entries: Entries, stopped: set<LoopId>, nextLoop: nat, name: string, e: Entry)
    requires Supervised(entries, stopped, nextLoop) && name in entries && e.loop == entries[name].loop
    ensures Supervised(entries[name := e], stopped, nextLoop)
  {
    var same := entries[name := e];
    assert forall n | n in entries :: same[n].loop == entries[n].loop;
    assert LoopsOf(same) == LoopsOf(entries);
  }

  /** A live loop was spawned, so its number is below the next one. */
  lemma LoopBelow(entries: Entries, stopped: set<LoopId>, nextLoop: nat, name: string)
    requires Supervised(entries, stopped, nextLoop) && name in entries
    ensures entries[name].loop < nextLoop
  {
    assert entries[name].loop in LoopsOf(entries);
    BelowMeans(nextLoop, entries[name].loop);
  }

  /** An entry that is gone, or has a new loop, had its old loop stopped. */
  lemma GoneIsStopped(
      before: Entries, stopped: set<LoopId>, nextLoop: nat,
      after: Entries, stopped': set<LoopId>, nextLoop': nat, name: string)
    requires Supervised(before, stopped, nextLoop) && Supervised(after, stopped', nextLoop') && nextLoop <= nextLoop'
    requires forall n | n in after :: after[n].loop >= nextLoop || (n in before && after[n].loop == before[n].loop)
    requires name in before && (name !in after || after[name].loop != before[name].loop)
    ensures before[name].loop in stopped'
  {
    var id := before[name].loop;
    LoopBelow(before, stopped, nextLoop, name);
    BelowMeans(nextLoop', id);
    assert id !in LoopsOf(after) by {
      assert forall n | n in after :: after[n].loop != id;
    }
  }

  lemma AllGoneAreStopped(
      before: Config, after: Config, entries0: Entries, stopped0: set<LoopId>, nextLoop0: nat,
      entries: Entries, stopped: set<LoopId>, nextLoop: nat)
    requires Supervised(entries0, stopped0, nextLoop0) && Supervised(entries, stopped, nextLoop)
    requires nextLoop0 <= nextLoop
    requires LoopsKept(before, after, nextLoop0, entries0, entries)
    ensures forall n | n in entries0 && (n !in after.providers || Rebuilt(before, after, n)) ::
      entries0[n].loop in stopped
  {
    forall n | n in entries0 && (n !in after.providers || Rebuilt(before, after, n))
      ensures entries0[n].loop in stopped
    {
      LoopBelow(entries0, stopped0, nextLoop0, n);
      GoneIsStopped(entries0, stopped0, nextLoop0, entries, stopped, nextLoop, n);
    }
  }

  // ----- progress of the passes, on values

  /** Clients, tracked providers and limiters are those of the configuration. */
  ghost predicate Fits(clients: Clients, entries: Entries, cfg: Config) {
    && clients.Keys == cfg.providers.Keys && entries.Keys == cfg.providers.Keys
    && (forall n | n in cfg.providers :: clients[n] == ClientFor(cfg.providers[n], cfg.pool))
    && (forall n | n in cfg.providers :: LimiterMatches(entries[n].limiter, cfg.providers[n].maxRps))
  }

  /** The first pass, with the providers in `left` still to visit. */
  ghost predicate DroppedSoFar(
      before: Config, after: Config, left: set<string>,
      clients0: Clients, entries0: Entries, clients: Clients, entries: Entries)
  {
    && (forall n :: n in entries <==> n in before.providers && (n in after.providers || n in left))
    && (forall n :: n in clients <==> n in before.providers && (n in after.providers || n in left))
    && (forall n | n in entries ::
          n in entries0 && n in clients0 && entries[n] == entries0[n] && clients[n] == clients0[n])
  }

  lemma DropOne(
      before: Config, after: Config, left: set<string>,
      clients0: Clients, entries0: Entries, clients: Clients, entries: Entries,
      name: string)
    requires DroppedSoFar(before, after, left, clients0, entries0, clients, entries) && name in left
    ensures name in after.providers ==> DroppedSoFar(before, after, left - {name}, clients0, entries0, clients, entries)
    ensures name !in after.providers ==>
      DroppedSoFar(before, after, left - {name}, clients0, entries0, clients - {name}, entries - {name})
  {
  }

  /** The second pass, with the providers in `left` still to visit. */
  ghost predicate BuiltSoFar(
      before: Config, after: Config, left: set<string>, now: real, nextLoop: nat,
      clients0: Clients, entries0: Entries, clients: Clients, entries: Entries)
  {
    && (forall n :: n in entries <==> n in after.providers && (n in before.providers || n !in left))
    && (forall n :: n in clients <==> n in after.providers && (n in before.providers || n !in left))
    && (forall n | n in entries && (n in left || !Rebuilt(before, after, n)) ::
          n in entries0 && n in clients0 && entries[n] == entries0[n] && clients[n] == clients0[n])
    && (forall n | n in entries && n !in left && Rebuilt(before, after, n) ::
          && clients[n] == ClientFor(after.providers[n], after.pool)
          && entries[n].loop >= nextLoop
          && entries[n].limiter == BuildLimiter(after.providers[n].maxRps, now))
  }

  lemma BuildOne(
      before: Config, after: Config, left: set<string>, now: real, nextLoop: nat,
      clients0: Clients, entries0: Entries, clients: Clients, entries: Entries,
      name: string, loop: LoopId)
    requires BuiltSoFar(before, after, left, now, nextLoop, clients0, entries0, clients, entries)
    requires name in left && name in after.providers && loop >= nextLoop
    ensures !Rebuilt(before, after, name) ==>
      BuiltSoFar(before, after, left - {name}, now, nextLoop, clients0, entries0, clients, entries)
    ensures Rebuilt(before, after, name) ==>
      BuiltSoFar(before, after, left - {name}, now, nextLoop, clients0, entries0,
                 clients[name := ClientFor(after.providers[name], after.pool)],
                 entries[name := Entry(loop, BuildLimiter(after.providers[name].maxRps, now))])
  {
  }

  /** The third pass: loops untouched, changed caps applied. */
  ghost predicate Capped(before: Config, after: Config, now: real, entries0: Entries, entries: Entries) {
    && entries.Keys == entries0.Keys == after.providers.Keys
    && (forall n | n in after.providers :: entries[n].loop == entries0[n].loop)
    && (forall n | n in after.providers ::
          entries[n].limiter == if OldCap(before, n) != after.providers[n].maxRps
                                then AppliedLimit(entries0[n].limiter, after.providers[n].maxRps, now)
                                else entries0[n].limiter)
  }

  /** The three passes together make the fleet fit the new configuration. */
  lemma PassesFit(
      before: Config, after: Config, now: real, nextLoop: nat,
      clients0: Clients, entries0: Entries, clients1: Clients, entries1: Entries,
      clients2: Clients, entries2: Entries, entries3: Entries)
    requires Fits(clients0, entries0, before)
    requires DroppedSoFar(before, after, {}, clients0, entries0, clients1, entries1)
    requires BuiltSoFar(before, after, {}, now, nextLoop, clients1, entries1, clients2, entries2)
    requires Capped(before, after, now, entries2, entries3)
    ensures Fits(clients2, entries3, after)
  {
    forall n | n in after.providers
      ensures clients2[n] == ClientFor(after.providers[n], after.pool)
      ensures LimiterMatches(entries3[n].limiter, after.providers[n].maxRps)
    {
      LimitersMatch(entries2[n].limiter, after.providers[n].maxRps, now);
      if !Rebuilt(before, after, n) {
        RebuildExactlyWhenInputsChange(before.providers[n], after.providers[n], before.pool, after.pool);
        assert LimiterMatches(entries0[n].limiter, before.providers[n].maxRps);
      }
    }
  }

  /** A loop, and so its health state, is kept exactly where the client inputs are unchanged. */
  ghost predicate LoopsKept(before: Config, after: Config, nextLoop: nat, entries0: Entries, entries: Entries) {
    && entries.Keys == after.providers.Keys
    && (forall n | n in entries && Rebuilt(before, after, n) :: entries[n].loop >= nextLoop)
    && (forall n | n in entries && !Rebuilt(before, after, n) ::
          && n in before.providers && n in entries0 && entries[n].loop == entries0[n].loop
          && (before.providers[n].maxRps == after.providers[n].maxRps ==> entries[n] == entries0[n]))
  }

  lemma PassesKeepLoops(
      before: Config, after: Config, now: real, nextLoop: nat,
      clients0: Clients, entries0: Entries, clients1: Clients, entries1: Entries,
      clients2: Clients, entries2: Entries, entries3: Entries)
    requires DroppedSoFar(before, after, {}, clients0, entries0, clients1, entries1)
    requires BuiltSoFar(before, after, {}, now, nextLoop, clients1, entries1, clients2, entries2)
    requires Capped(before, after, now, entries2, entries3)
    ensures LoopsKept(before, after, nextLoop, entries0, entries3)
  {
  }

  lemma PassesMeter(
      before: Config, after: Config, now: real, nextLoop: nat,
      clients0: Clients, entries0: Entries, clients1: Clients, entries1: Entries,
      clients2: Clients, entries2: Entries, entries3: Entries)
    requires DroppedSoFar(before, after, {}, clients0, entries0, clients1, entries1)
    requires BuiltSoFar(before, after, {}, now, nextLoop, clients1, entries1, clients2, entries2)
    requires Capped(before, after, now, entries2, entries3)
    ensures Metered(before, after, now, entries0, entries3)
  {
    forall n | n in entries3 && Rebuilt(before, after, n) && after.providers[n].maxRps.Some?
      ensures entries3[n].limiter.Some? && entries3[n].limiter.value.tokens == after.providers[n].maxRps.value as real
    {
      RebuiltStartsFull(after.providers[n].maxRps.value, now);
    }
    forall n | n in entries3 && !Rebuilt(before, after, n) && OldCap(before, n) != after.providers[n].maxRps
      ensures n in entries0 && LevelKept(entries0[n].limiter, entries3[n].limiter, after.providers[n].maxRps, now)
    {
      LimitsKeepLevel(entries0[n].limiter, after.providers[n].maxRps, now);
    }
  }

  class Fleet {
    var clients: Clients
    var entries: Entries
    var stopped: set<LoopId>     // loops whose stop flag is set
    var nextLoop: LoopId         // loops are numbered as they are spawned

    ghost predicate Valid()
      reads this
    {
      Supervised(entries, stopped, nextLoop)
    }

    ghost predicate Matches(cfg: Config)
      reads this
    {
      Fits(clients, entries, cfg)
    }

    constructor ()
      ensures Valid() && Matches(Config(map[], 0)) && nextLoop == 0 && stopped == {}
    {
      clients, entries, stopped, nextLoop := map[], map[], {}, 0;
    }

    method AddProvider(name: string, p: ProviderConfig, now: real)
      requires Valid() && name !in entries
      modifies this`entries, this`nextLoop
      ensures Valid()
      ensures nextLoop == old(nextLoop) + 1
      ensures entries == old(entries)[name := Entry(old(nextLoop), BuildLimiter(p.maxRps, now))]
    {
      var entry := Entry(nextLoop, BuildLimiter(p.maxRps, now));
      AddSupervised(entries, stopped, nextLoop, name, entry);
      nextLoop := nextLoop + 1;
      entries := entries[name := entry];
    }

    method RemoveProvider(name: string)
      requires Valid()
      modifies this`entries, this`stopped
      ensures Valid()
      ensures entries == old(entries) - {name}
      ensures stopped == old(stopped) + (if name in old(entries) then {old(entries)[name].loop} else {})
    {
      if name in entries {
        RemoveSupervised(entries, stopped, nextLoop, name);
        stopped := stopped + {entries[name].loop};
        entries := entries - {name};
      }
    }

    method ApplyRateLimit(name: string, maxRps: Option<nat>, now: real)
      requires Valid()
      modifies this`entries
      ensures Valid()
      ensures name !in old(entries) ==> entries == old(entries)
      ensures name in old(entries) ==>
        var e := old(entries)[name];
        entries == old(entries)[name := Entry(e.loop, AppliedLimit(e.limiter, maxRps, now))]
    {
      if name !in entries {
        return;
      }
      var entry := Entry(entries[name].loop, AppliedLimit(entries[name].limiter, maxRps, now));
      RelimitSupervised(entries, stopped, nextLoop, name, entry);
      entries := entries[name := entry];
    }

    /** First pass: drop every provider that the new configuration no longer names. */
    method DropRemoved(before: Config, after: Config)
      requires Valid() && clients.Keys == entries.Keys == before.providers.Keys
      modifies this`clients, this`entries, this`stopped
      ensures Valid() && DroppedSoFar(before, after, {}, old(clients), old(entries), clients, entries)
    {
      var left := before.providers.Keys;
      while left != {}
        invariant Valid() && left <= before.providers.Keys
        invariant DroppedSoFar(before, after, left, old(clients), old(entries), clients, entries)
        decreases left
      {
        var name :| name in left;
        DropOne(before, after, left, old(clients), old(entries), clients, entries, name);
        left := left - {name};
        if name !in after.providers {
          clients := clients - {name};
          RemoveProvider(name);
        }
      }
    }

    /** Remove-then-add for a provider that existed, plain add otherwise. */
    method Rebuild(name: string, existed: bool, p: ProviderConfig, pool: nat, now: real)
      requires Valid() && (existed <==> name in entries)
      modifies this
      ensures Valid() && nextLoop == old(nextLoop) + 1
      ensures clients == old(clients)[name := ClientFor(p, pool)]
      ensures entries == old(entries)[name := Entry(old(nextLoop), BuildLimiter(p.maxRps, now))]
    {
      if existed {
        clients := clients - {name};
        RemoveProvider(name);
      }
      clients := clients[name := ClientFor(p, pool)];
      AddProvider(name, p, now);
    }

    /** Second pass: (re)build the client and the health of every provider whose inputs changed. */
    method BuildChanged(before: Config, after: Config, now: real)
      requires Valid()
      requires forall n :: n in entries <==> n in before.providers && n in after.providers
      requires forall n :: n in clients <==> n in before.providers && n in after.providers
      modifies this
      ensures Valid() && nextLoop >= old(nextLoop)
      ensures BuiltSoFar(before, after, {}, now, old(nextLoop), old(clients), old(entries), clients, entries)
    {
      var left := after.providers.Keys;
      while left != {}
        invariant Valid() && nextLoop >= old(nextLoop) && left <= after.providers.Keys
        invariant BuiltSoFar(before, after, left, now, old(nextLoop), old(clients), old(entries), clients, entries)
        decreases left
      {
        var name :| name in left;
        BuildOne(before, after, left, now, old(nextLoop), old(clients), old(entries), clients, entries, name, nextLoop);
        RebuiltMeans(before, after, name);
        left := left - {name};
        var p := after.providers[name];
        if RebuildReason(Lookup(before.providers, name), p, before.pool != after.pool).Some? {
          Rebuild(name, name in before.providers, p, after.pool, now);
        }
      }
    }

    /** Third pass: push changed caps into the limiters, in place. */
    method ApplyCaps(before: Config, after: Config, now: real)
      requires Valid() && entries.Keys == after.providers.Keys
      modifies this`entries
      ensures Valid() && Capped(before, after, now, old(entries), entries)
    {
      var left := after.providers.Keys;
      while left != {}
        invariant Valid() && left <= after.providers.Keys && entries.Keys == after.providers.Keys
        invariant forall n | n in after.providers :: entries[n].loop == old(entries)[n].loop
        invariant forall n | n in left :: entries[n] == old(entries)[n]
        invariant forall n | n in after.providers && n !in left ::
          entries[n].limiter == if OldCap(before, n) != after.providers[n].maxRps
                                then AppliedLimit(old(entries)[n].limiter, after.providers[n].maxRps, now)
                                else old(entries)[n].limiter
        decreases left
      {
        var name :| name in left;
        left := left - {name};
        if OldCap(before, name) != after.providers[name].maxRps {
          ApplyRateLimit(name, after.providers[name].maxRps, now);
        }
      }
    }

    /**
      * One reload, whatever order the maps are visited in: clients, tracked providers and
      * limiter rates match the new configuration; health is kept exactly where the client inputs
      * are unchanged, with its token level if the cap is too; and every loop that no longer
      * serves a provider has been told to stop.
      */
    method Reconcile(before: Config, after: Config, now: real)
      requires Valid() && Matches(before)
      modifies this
      ensures Valid() && Matches(after)
      ensures LoopsKept(before, after, old(nextLoop), old(entries), entries)
      ensures Metered(before, after, now, old(entries), entries)
      ensures forall n | n in old(entries) && (n !in after.providers || Rebuilt(before, after, n)) ::
        old(entries)[n].loop in stopped
    {
      DropRemoved(before, after);
      ghost var clients1, entries1 := clients, entries;
      BuildChanged(before, after, now);
      ghost var clients2, entries2 := clients, entries;
      assert entries.Keys == after.providers.Keys;
      ApplyCaps(before, after, now);
      PassesFit(before, after, now, old(nextLoop), old(clients), old(entries),
                clients1, entries1, clients2, entries2, entries);
      PassesKeepLoops(before, after, now, old(nextLoop), old(clients), old(entries),
                      clients1, entries1, clients2, entries2, entries);
      PassesMeter(before, after, now, old(nextLoop), old(clients), old(entries),
                  clients1, entries1, clients2, entries2, entries);
      AllGoneAreStopped(before, after, old(entries), old(stopped), old(nextLoop), entries, stopped, nextLoop);
    }

    /** `watch_config`: one reload after another, each against the configuration before it. */
    method Watch(first: Config, configs: seq<Config>, times: seq<real>)
      requires Valid() && Matches(first) && |times| == |configs|
      modifies this
      ensures Valid() && Matches(if configs == [] then first else configs[|configs| - 1])
    {
      var current := first;
      for i := 0 to |configs|
        invariant Valid() && Matches(current)
        invariant current == if i == 0 then first else configs[i - 1]
      {
        Reconcile(current, configs[i], times[i]);
        current := configs[i];
      }
    }
  }

  function OldCap(before: Config, name: string): Option<nat> {
    if name in before.providers then before.providers[name].maxRps else None
  }
}
