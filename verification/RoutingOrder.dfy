/**
  * What every routing decision of src/router.rs guarantees, for every strategy and roll.
  */
module RoutingOrder {
  import opened Common
  import opened Outcomes
  import opened Routing

  // ----- what the orderings are

  lemma {:induction false} InsertPermutes(x: Snapshot, t: seq<Snapshot>)
    ensures multiset(Insert(x, t)) == multiset{x} + multiset(t)
  {
    if t != [] {
      assert t == [t[0]] + t[1..];
      if t[0].score > x.score {
        InsertPermutes(x, t[1..]);
      }
    }
  }

  lemma {:induction false} ByScorePermutes(s: seq<Snapshot>)
    ensures multiset(ByScore(s)) == multiset(s)
  {
    if s != [] {
      assert s == [s[0]] + s[1..];
      ByScorePermutes(s[1..]);
      InsertPermutes(s[0], ByScore(s[1..]));
    }
  }

  ghost predicate Falling(s: seq<Snapshot>) {
    forall i, j | 0 <= i < j < |s| :: s[i].score >= s[j].score
  }

  lemma {:induction false} InsertKeepsFalling(x: Snapshot, t: seq<Snapshot>)
    requires Falling(t)
    ensures Falling(Insert(x, t))
    ensures Insert(x, t) != [] && (Insert(x, t)[0] == x || (t != [] && Insert(x, t)[0] == t[0]))
  {
    if t != [] && t[0].score > x.score {
      InsertKeepsFalling(x, t[1..]);
      var rest := Insert(x, t[1..]);
      assert rest[0].score <= t[0].score;
      assert forall j | 0 <= j < |rest| :: rest[j].score <= rest[0].score;
    }
  }

  lemma {:induction false} ByScoreFalls(s: seq<Snapshot>)
    ensures Falling(ByScore(s))
  {
    if s != [] {
      ByScoreFalls(s[1..]);
      InsertKeepsFalling(s[0], ByScore(s[1..]));
    }
  }

  /** The snapshots of one score, in their order. */
  ghost function OfScore(s: seq<Snapshot>, score: real): seq<Snapshot> {
    if s == [] then [] else (if s[0].score == score then [s[0]] else []) + OfScore(s[1..], score)
  }

  ghost function IfScore(x: Snapshot, score: real): seq<Snapshot> {
    if x.score == score then [x] else []
  }

  lemma OfScoreCons(x: Snapshot, t: seq<Snapshot>, score: real)
    ensures OfScore([x] + t, score) == IfScore(x, score) + OfScore(t, score)
  {
    assert ([x] + t)[1..] == t;
  }

  lemma {:induction false} InsertIsStable(x: Snapshot, t: seq<Snapshot>, score: real)
    ensures OfScore(Insert(x, t), score) == IfScore(x, score) + OfScore(t, score)
  {
    if t == [] || t[0].score <= x.score {
      OfScoreCons(x, t, score);
    } else {
      InsertIsStable(x, t[1..], score);
      OfScoreCons(t[0], Insert(x, t[1..]), score);
      assert t == [t[0]] + t[1..];
      OfScoreCons(t[0], t[1..], score);
      // x scores below t[0], so at most one of the two is of this score.
      assert IfScore(x, score) == [] || IfScore(t[0], score) == [];
    }
  }

  /** Snapshots of equal score keep the order they came in. */
  lemma {:induction false} ByScoreIsStable(s: seq<Snapshot>, score: real)
    ensures OfScore(ByScore(s), score) == OfScore(s, score)
  {
    if s != [] {
      ByScoreIsStable(s[1..], score);
      InsertIsStable(s[0], ByScore(s[1..]), score);
    }
  }

  ghost predicate Distinct(names: seq<string>) {
    forall i, j | 0 <= i < j < |names| :: names[i] != names[j]
  }

  ghost function ProviderNames(ps: seq<Provider>): (names: seq<string>)
    ensures |names| == |ps| && forall i | 0 <= i < |ps| :: names[i] == ps[i].name
  {
    seq(|ps|, i requires 0 <= i < |ps| => ps[i].name)
  }

  lemma {:induction false} FindMeans(ps: seq<Provider>, name: string)
    ensures Find(ps, name).Some? <==> exists i :: 0 <= i < |ps| && ps[i].name == name
    ensures Find(ps, name).Some? ==> Find(ps, name).value in ps && Find(ps, name).value.name == name
  {
    if ps != [] {
      FindMeans(ps[1..], name);
      assert forall i | 1 <= i < |ps| :: ps[i] == ps[1..][i - 1];
      if ps[0].name != name && Find(ps[1..], name).Some? {
        var i :| 0 <= i < |ps[1..]| && ps[1..][i].name == name;
        assert ps[i + 1].name == name;
      }
    }
  }

  lemma {:induction false} FindSnapshotMeans(s: seq<Snapshot>, name: string)
    ensures |FindSnapshot(s, name)| <= 1
    ensures forall x | x in FindSnapshot(s, name) :: x in s && x.name == name
    ensures FindSnapshot(s, name) == [] <==> forall x | x in s :: x.name != name
  {
    if s != [] {
      FindSnapshotMeans(s[1..], name);
      assert forall x :: x in s <==> x == s[0] || x in s[1..];
    }
  }

  /** With distinct names, each configured provider contributes its own snapshot, once. */
  lemma {:induction false} ConfiguredCount(ps: seq<Provider>, s: seq<Snapshot>, x: Snapshot)
    requires Distinct(ProviderNames(ps)) && Distinct(Names(s)) && x in s
    ensures multiset(Configured(ps, s))[x] == if Find(ps, x.name).Some? then 1 else 0
    decreases |ps|
  {
    if ps != [] {
      var rest := ps[1..];
      assert forall i | 0 <= i < |rest| :: rest[i] == ps[i + 1];
      assert forall i | 0 <= i < |rest| :: ProviderNames(rest)[i] == ProviderNames(ps)[i + 1];
      ConfiguredCount(rest, s, x);
      FindMeans(rest, x.name);
      var found := FindSnapshot(s, ps[0].name);
      FindSnapshotMeans(s, ps[0].name);
      assert multiset(Configured(ps, s)) == multiset(found) + multiset(Configured(rest, s));
      if ps[0].name == x.name {
        assert found[0] in s && found[0].name == x.name;
        SameNameSameSnapshot(s, found[0], x);
        assert found == [x];
        assert forall j | 1 <= j < |ps| :: ProviderNames(ps)[0] != ProviderNames(ps)[j];
      } else {
        assert x !in found;
      }
    }
  }

  lemma SameNameSameSnapshot(s: seq<Snapshot>, x: Snapshot, y: Snapshot)
    requires Distinct(Names(s)) && x in s && y in s && x.name == y.name
    ensures x == y
  {
    var i :| 0 <= i < |s| && s[i] == x;
    var j :| 0 <= j < |s| && s[j] == y;
    assert Names(s)[i] == Names(s)[j];
  }

  lemma {:induction false} UnconfiguredCount(ps: seq<Provider>, s: seq<Snapshot>, x: Snapshot)
    ensures multiset(Unconfigured(ps, s))[x] == if Find(ps, x.name).None? then multiset(s)[x] else 0
  {
    if s != [] {
      UnconfiguredCount(ps, s[1..], x);
      assert s == [s[0]] + s[1..];
    }
  }

  lemma {:induction false} ConfiguredFromAvailable(ps: seq<Provider>, s: seq<Snapshot>, x: Snapshot)
    requires x in Configured(ps, s)
    ensures x in s
    decreases |ps|
  {
    if ps != [] {
      FindSnapshotMeans(s, ps[0].name);
      if x !in FindSnapshot(s, ps[0].name) {
        ConfiguredFromAvailable(ps[1..], s, x);
      }
    }
  }

  lemma DistinctCount(s: seq<Snapshot>, x: Snapshot)
    requires Distinct(Names(s)) && x in s
    ensures multiset(s)[x] == 1
  {
    var i :| 0 <= i < |s| && s[i] == x;
    assert s == s[..i] + [x] + s[i + 1..];
    assert x !in s[..i] by {
      assert forall j | 0 <= j < i :: Names(s)[j] != Names(s)[i];
    }
    assert x !in s[i + 1..] by {
      assert forall j | i < j < |s| :: Names(s)[i] != Names(s)[j];
    }
  }

  lemma ConfigOrderPermutes(ps: seq<Provider>, s: seq<Snapshot>)
    requires Distinct(ProviderNames(ps)) && Distinct(Names(s))
    ensures multiset(Configured(ps, s) + Unconfigured(ps, s)) == multiset(s)
  {
    forall x: Snapshot
      ensures multiset(Configured(ps, s) + Unconfigured(ps, s))[x] == multiset(s)[x]
    {
      UnconfiguredCount(ps, s, x);
      if x in s {
        ConfiguredCount(ps, s, x);
        DistinctCount(s, x);
      } else if x in Configured(ps, s) {
        ConfiguredFromAvailable(ps, s, x);
      }
    }
  }

  /** The configured names among `s`, in configuration order. */
  ghost function Present(ps: seq<Provider>, s: seq<Snapshot>): seq<string> {
    if ps == [] then []
    else (if exists x :: x in s && x.name == ps[0].name then [ps[0].name] else []) + Present(ps[1..], s)
  }

  lemma {:induction false} ConfiguredInConfigOrder(ps: seq<Provider>, s: seq<Snapshot>)
    ensures Names(Configured(ps, s)) == Present(ps, s)
    decreases |ps|
  {
    if ps != [] {
      ConfiguredInConfigOrder(ps[1..], s);
      var found := FindSnapshot(s, ps[0].name);
      FindSnapshotMeans(s, ps[0].name);
      assert Configured(ps, s) == found + Configured(ps[1..], s);
      assert found != [] ==> found[0] in s && found[0].name == ps[0].name;
      assert Names(found + Configured(ps[1..], s)) == Names(found) + Names(Configured(ps[1..], s));
    }
  }

  lemma PrimaryFirstPermutes(s: seq<Snapshot>, i: nat)
    requires i < |s|
    ensures multiset(PrimaryFirst(s, i)) == multiset(s)
  {
    ByScorePermutes(s[..i] + s[i + 1..]);
    assert s == s[..i] + [s[i]] + s[i + 1..];
  }

  // ----- availability

  lemma {:induction false} AvailableMeans(q: Query, snaps: seq<Snapshot>, x: Snapshot)
    ensures x in Available(q, snaps) <==> x in snaps && IsAvailable(x) && Permitted(q, x.name)
    ensures x in AllPermitted(q, snaps) <==> x in snaps && Permitted(q, x.name)
  {
    if snaps != [] {
      AvailableMeans(q, snaps[1..], x);
      assert x in snaps <==> x == snaps[0] || x in snaps[1..];
    }
  }

  lemma {:induction false} AvailableDistinct(q: Query, snaps: seq<Snapshot>)
    requires Distinct(Names(snaps))
    ensures Distinct(Names(Available(q, snaps)))
  {
    if snaps != [] {
      var rest := snaps[1..];
      assert forall i | 0 <= i < |rest| :: Names(rest)[i] == Names(snaps)[i + 1];
      AvailableDistinct(q, rest);
      var tail := Available(q, rest);
      forall j | 0 <= j < |tail|
        ensures tail[j].name != snaps[0].name
      {
        AvailableMeans(q, rest, tail[j]);
        var k :| 0 <= k < |rest| && rest[k] == tail[j];
        assert Names(snaps)[k + 1] != Names(snaps)[0];
      }
    }
  }

  // ----- the decision

  /** Falling scores, with ties in the order they came in. */
  ghost predicate StablyFalling(s: seq<Snapshot>, t: seq<Snapshot>) {
    Falling(t) && forall score: real :: OfScore(t, score) == OfScore(s, score)
  }

  lemma ByScoreStablyFalls(s: seq<Snapshot>)
    ensures StablyFalling(s, ByScore(s))
  {
    ByScoreFalls(s);
    forall score: real
      ensures OfScore(ByScore(s), score) == OfScore(s, score)
    {
      ByScoreIsStable(s, score);
    }
  }

  /** The order a strategy promises. */
  ghost predicate Ordered(q: Query, available: seq<Snapshot>, roll: real, t: seq<Snapshot>) {
    if IsWrite(q) && q.broadcastWrites then t == available
    else match q.strategy
      case BestScore => StablyFalling(available, t)
      case ParallelRace => StablyFalling(available, t)
      case FailoverOrdered =>
        && |Present(q.providers, available)| <= |t|
        && Names(t)[..|Present(q.providers, available)|] == Present(q.providers, available)
        && (forall i | |Present(q.providers, available)| <= i < |t| :: Find(q.providers, t[i].name).None?)
        && t[|Present(q.providers, available)|..] == Unconfigured(q.providers, available)
      case WeightedRandom =>
        && t != []
        && exists i: nat ::
             && Reaches(Weights(q, available), Target(roll, Weights(q, available)), i)
             && t[0] == available[i]
             && StablyFalling(available[..i] + available[i + 1..], t[1..])
  }

  lemma {:induction false} UnconfiguredMeans(ps: seq<Provider>, s: seq<Snapshot>)
    ensures forall i | 0 <= i < |Unconfigured(ps, s)| :: Find(ps, Unconfigured(ps, s)[i].name).None?
  {
    if s != [] {
      UnconfiguredMeans(ps, s[1..]);
    }
  }

  lemma ConfigOrderOrdered(ps: seq<Provider>, s: seq<Snapshot>)
    ensures var t, n := Configured(ps, s) + Unconfigured(ps, s), |Present(ps, s)|;
            && n <= |t| && Names(t)[..n] == Present(ps, s) && t[n..] == Unconfigured(ps, s)
            && (forall i | n <= i < |t| :: Find(ps, t[i].name).None?)
  {
    ConfiguredInConfigOrder(ps, s);
    UnconfiguredMeans(ps, s);
    var c, u := Configured(ps, s), Unconfigured(ps, s);
    assert Names(c + u)[..|c|] == Names(c);
  }

  lemma PrimaryFirstOrdered(available: seq<Snapshot>, i: nat, t: seq<Snapshot>)
    requires i < |available| && t == PrimaryFirst(available, i)
    ensures t != [] && t[0] == available[i] && multiset(t) == multiset(available)
    ensures StablyFalling(available[..i] + available[i + 1..], t[1..])
  {
    PrimaryFirstPermutes(available, i);
    ByScoreStablyFalls(available[..i] + available[i + 1..]);
    assert t[1..] == ByScore(available[..i] + available[i + 1..]);
  }

  /**
    * A decision that is not degraded lists a permutation of exactly the available, permitted
    * snapshots, in the order its strategy promises.
    */
  lemma DecisionIsOrderedPermutation(q: Query, snaps: seq<Snapshot>, roll: real, d: Decision) returns (t: seq<Snapshot>)
    requires Routes(q, snaps, roll, d) && !d.degraded
    requires Distinct(ProviderNames(q.providers)) && Distinct(Names(snaps))
    ensures d.providers == Names(t) && multiset(t) == multiset(Available(q, snaps))
    ensures Ordered(q, Available(q, snaps), roll, t)
  {
    var available := Available(q, snaps);
    AvailableDistinct(q, snaps);
    if IsWrite(q) && q.broadcastWrites {
      t := available;
    } else {
      match q.strategy {
        case FailoverOrdered =>
          t := Configured(q.providers, available) + Unconfigured(q.providers, available);
          ConfigOrderPermutes(q.providers, available);
          ConfigOrderOrdered(q.providers, available);
        case WeightedRandom =>
          var i: nat :| Reaches(Weights(q, available), Target(roll, Weights(q, available)), i)
                        && d == Decision(Names(PrimaryFirst(available, i)), false, false);
          t := PrimaryFirst(available, i);
          PrimaryFirstOrdered(available, i, t);
        case _ =>
          t := ByScore(available);
          ByScorePermutes(available);
          ByScoreStablyFalls(available);
      }
    }
  }

  /** Degraded exactly when nobody is available; then everyone permitted is listed, in order. */
  lemma DegradedExactly(q: Query, snaps: seq<Snapshot>, roll: real, d: Decision)
    requires Routes(q, snaps, roll, d)
    ensures d.degraded <==> forall x | x in snaps :: !(!x.isOpen && !x.rateLimited && Permitted(q, x.name))
    ensures d.degraded ==> d.providers == Names(AllPermitted(q, snaps))
  {
    forall x: Snapshot {
      AvailableMeans(q, snaps, x);
    }
    if Available(q, snaps) != [] {
      assert Available(q, snaps)[0] in Available(q, snaps);
    }
  }

  /** No configured shallow provider serves a full-history call, even degraded. */
  lemma FullHistoryNeedsFullProvider(q: Query, snaps: seq<Snapshot>, roll: real, d: Decision, name: string)
    requires Routes(q, snaps, roll, d) && q.fullHistory && name in d.providers
    requires Distinct(ProviderNames(q.providers)) && Distinct(Names(snaps))
    ensures Permitted(q, name)
    ensures Find(q.providers, name).Some? ==> Find(q.providers, name).value.history == Full
  {
    if d.degraded {
      DegradedExactly(q, snaps, roll, d);
      var x :| x in AllPermitted(q, snaps) && x.name == name;
      AvailableMeans(q, snaps, x);
    } else {
      var t := DecisionIsOrderedPermutation(q, snaps, roll, d);
      var x :| x in t && x.name == name;
      assert x in multiset(t) && x in multiset(Available(q, snaps));
      AvailableMeans(q, snaps, x);
    }
  }

  // ----- fan-out

  /** A request is fanned out exactly for broadcast writes and for races with someone available. */
  lemma BroadcastExactly(q: Query, snaps: seq<Snapshot>, roll: real, d: Decision)
    requires Routes(q, snaps, roll, d)
    ensures d.broadcast <==>
      (q.call in q.writeMethods && q.broadcastWrites) || (q.strategy == ParallelRace && !d.degraded)
  {
  }

  /**
    * The documentation says writes go out one at a time unless `broadcast_writes` is set. That
    * holds exactly when the strategy is not `parallel_race`, or nobody is available.
    */
  lemma SingleWriteExactly(q: Query, snaps: seq<Snapshot>, roll: real, d: Decision)
    requires Routes(q, snaps, roll, d) && q.call in q.writeMethods && !q.broadcastWrites
    ensures !d.broadcast <==>
      || q.strategy != ParallelRace
      || (forall x | x in snaps :: !(!x.isOpen && !x.rateLimited && Permitted(q, x.name)))
  {
    BroadcastExactly(q, snaps, roll, d);
    DegradedExactly(q, snaps, roll, d);
  }

  const RACE := Query(
    "sendTransaction", ParallelRace, [Provider("a", None, Full, 1)], false, ["sendTransaction"], false)

  /** A write to a configured provider that is fanned out although `broadcast_writes` is off. */
  lemma RacedWrite(d: Decision)
    requires Routes(RACE, [Snapshot("a", 0.9, false, false)], 0.0, d)
    ensures RACE.call in RACE.writeMethods && !RACE.broadcastWrites && d.broadcast
  {
    var a := Snapshot("a", 0.9, false, false);
    FindMeans(RACE.providers, "a");
    assert RACE.providers[0].name == "a";
    AvailableMeans(RACE, [a], a);
    DegradedExactly(RACE, [a], 0.0, d);
    BroadcastExactly(RACE, [a], 0.0, d);
  }

  lemma {:induction false} AvailableIgnoresClass(q: Query, snaps: seq<Snapshot>)
    ensures Available(q.(writeMethods := []), snaps) == Available(q, snaps)
    ensures AllPermitted(q.(writeMethods := []), snaps) == AllPermitted(q, snaps)
  {
    if snaps != [] {
      AvailableIgnoresClass(q, snaps[1..]);
    }
  }

  lemma WeightsIgnoreClass(q: Query, s: seq<Snapshot>)
    ensures Weights(q.(writeMethods := []), s) == Weights(q, s)
  {
    forall i | 0 <= i < |s|
      ensures Weights(q.(writeMethods := []), s)[i] == Weights(q, s)[i]
    {
      assert Weight(q.(writeMethods := []), s[i]) == Weight(q, s[i]);
    }
  }

  /**
    * The documentation also says that writes do not use the read strategy. With `broadcast_writes`
    * off they always do: whether a method is a write makes no difference to its decision.
    */
  lemma WriteClassIgnored(q: Query, snaps: seq<Snapshot>, roll: real, d: Decision)
    requires !q.broadcastWrites
    ensures Routes(q, snaps, roll, d) <==> Routes(q.(writeMethods := []), snaps, roll, d)
  {
    AvailableIgnoresClass(q, snaps);
    WeightsIgnoreClass(q, Available(q, snaps));
  }

  lemma {:induction false} AvailableIgnoresStrategy(q: Query, snaps: seq<Snapshot>, strategy: Strategy)
    ensures Available(q.(strategy := strategy), snaps) == Available(q, snaps)
    ensures AllPermitted(q.(strategy := strategy), snaps) == AllPermitted(q, snaps)
  {
    if snaps != [] {
      AvailableIgnoresStrategy(q, snaps[1..], strategy);
    }
  }

  /** With it on, the strategy makes no difference to a write: the documented claim holds. */
  lemma BroadcastWriteIgnoresStrategy(q: Query, snaps: seq<Snapshot>, roll: real, d: Decision, strategy: Strategy)
    requires q.broadcastWrites && q.call in q.writeMethods
    ensures Routes(q, snaps, roll, d) <==> Routes(q.(strategy := strategy), snaps, roll, d)
  {
    AvailableIgnoresStrategy(q, snaps, strategy);
  }

  // ----- the weighted pick

  lemma {:induction false} CumulativeRises(ws: seq<real>, m: nat, n: nat)
    requires m <= n <= |ws| && forall i | 0 <= i < |ws| :: ws[i] > 0.0
    ensures Cumulative(ws, m) <= Cumulative(ws, n)
    decreases n - m
  {
    if m < n {
      CumulativeNext(ws, m);
      CumulativeRises(ws, m + 1, n);
    }
  }

  /**
    * Position `i` is picked exactly when the roll lands in its own interval of the cumulative
    * weights, whose length is its weight; the first interval also includes its lower end.
    */
  lemma PickedExactlyOnOwnInterval(ws: seq<real>, target: real, i: nat)
    requires i < |ws| && forall k | 0 <= k < |ws| :: ws[k] > 0.0
    ensures Reaches(ws, target, i) <==> (i == 0 || Cumulative(ws, i) < target) && target <= Cumulative(ws, i + 1)
    ensures Cumulative(ws, i + 1) - Cumulative(ws, i) == ws[i]
  {
    CumulativeNext(ws, i);
    forall n | 1 <= n <= i
      ensures Cumulative(ws, n) <= Cumulative(ws, i)
    {
      CumulativeRises(ws, n, i);
    }
  }

  // ----- who is listed, literally

  /** The configured provider of that name, if there is one, allows the method and keeps enough history. */
  ghost predicate MayServe(q: Query, name: string) {
    forall p | p in q.providers && p.name == name ::
      && (p.methods == None || p.methods == Some([]) || q.call in p.methods.value)
      && (q.fullHistory ==> p.history == Full)
  }

  lemma PermittedMeans(q: Query, name: string)
    requires Distinct(ProviderNames(q.providers))
    ensures Permitted(q, name) <==> MayServe(q, name)
  {
    FindMeans(q.providers, name);
    forall p | p in q.providers && p.name == name
      ensures Find(q.providers, name) == Some(p)
    {
      var i :| 0 <= i < |q.providers| && q.providers[i] == p;
      assert q.providers[i].name == name;
      OneOfThatName(q.providers, Find(q.providers, name).value, p);
    }
  }

  lemma OneOfThatName(ps: seq<Provider>, x: Provider, y: Provider)
    requires Distinct(ProviderNames(ps)) && x in ps && y in ps && x.name == y.name
    ensures x == y
  {
    var i :| 0 <= i < |ps| && ps[i] == x;
    var j :| 0 <= j < |ps| && ps[j] == y;
    assert ProviderNames(ps)[i] == ProviderNames(ps)[j];
  }

  /**
    * A provider is listed exactly if it has a snapshot and may serve the request and, unless the
    * decision is degraded, its circuit is not open and it is not at its cap.
    */
  lemma ListedExactly(q: Query, snaps: seq<Snapshot>, roll: real, d: Decision, name: string)
    requires Routes(q, snaps, roll, d)
    requires Distinct(ProviderNames(q.providers)) && Distinct(Names(snaps))
    ensures name in d.providers <==>
      exists x :: x in snaps && x.name == name && MayServe(q, name) && (d.degraded || (!x.isOpen && !x.rateLimited))
  {
    PermittedMeans(q, name);
    forall x: Snapshot {
      AvailableMeans(q, snaps, x);
    }
    if d.degraded {
      DegradedExactly(q, snaps, roll, d);
      NamesMean(AllPermitted(q, snaps), name);
    } else {
      var t := DecisionIsOrderedPermutation(q, snaps, roll, d);
      NamesMean(t, name);
      assert forall x :: x in t <==> x in multiset(t);
      assert forall x :: x in Available(q, snaps) <==> x in multiset(Available(q, snaps));
    }
  }

  lemma NamesMean(s: seq<Snapshot>, name: string)
    ensures name in Names(s) <==> exists x :: x in s && x.name == name
  {
    if x :| x in s && x.name == name {
      var i :| 0 <= i < |s| && s[i] == x;
      assert Names(s)[i] == name;
    }
  }

  lemma AvailableCons(q: Query, x: Snapshot, t: seq<Snapshot>)
    ensures Available(q, [x] + t) == (if IsAvailable(x) && Permitted(q, x.name) then [x] else []) + Available(q, t)
    ensures AllPermitted(q, [x] + t) == (if Permitted(q, x.name) then [x] else []) + AllPermitted(q, t)
  {
    assert ([x] + t)[1..] == t;
  }

  lemma Regroup<T>(x: seq<T>, y: seq<T>, z: seq<T>)
    ensures x + (y + z) == (x + y) + z
  {
  }

  lemma {:induction false} AvailableKeepsOrder(q: Query, a: seq<Snapshot>, b: seq<Snapshot>)
    ensures Available(q, a + b) == Available(q, a) + Available(q, b)
  {
    if a == [] {
      assert a + b == b;
    } else {
      var x, t := a[0], a[1..];
      AvailableKeepsOrder(q, t, b);
      assert a == [x] + t;
      Regroup([x], t, b);
      AvailableCons(q, x, t);
      AvailableCons(q, x, t + b);
      Regroup(if IsAvailable(x) && Permitted(q, x.name) then [x] else [], Available(q, t), Available(q, b));
    }
  }

  lemma {:induction false} PermittedKeepsOrder(q: Query, a: seq<Snapshot>, b: seq<Snapshot>)
    ensures AllPermitted(q, a + b) == AllPermitted(q, a) + AllPermitted(q, b)
  {
    if a == [] {
      assert a + b == b;
    } else {
      var x, t := a[0], a[1..];
      PermittedKeepsOrder(q, t, b);
      assert a == [x] + t;
      Regroup([x], t, b);
      AvailableCons(q, x, t);
      AvailableCons(q, x, t + b);
      Regroup(if Permitted(q, x.name) then [x] else [], AllPermitted(q, t), AllPermitted(q, b));
    }
  }

  /** Leaving providers out keeps the order of the rest. */
  lemma FiltersKeepOrder(q: Query, a: seq<Snapshot>, b: seq<Snapshot>)
    ensures Available(q, a + b) == Available(q, a) + Available(q, b)
    ensures AllPermitted(q, a + b) == AllPermitted(q, a) + AllPermitted(q, b)
  {
    AvailableKeepsOrder(q, a, b);
    PermittedKeepsOrder(q, a, b);
  }

  // ----- the weights

  /** A snapshot weighs its score times its configured weight, 1 if it has none, and never less than a billionth. */
  lemma WeightMeans(q: Query, s: Snapshot)
    requires Distinct(ProviderNames(q.providers))
    ensures forall p | p in q.providers && p.name == s.name ::
      Weight(q, s) == if p.weight as real * s.score > 0.000000001 then p.weight as real * s.score else 0.000000001
    ensures (forall p | p in q.providers :: p.name != s.name) ==>
      Weight(q, s) == if s.score > 0.000000001 then s.score else 0.000000001
  {
    FindMeans(q.providers, s.name);
    forall p | p in q.providers && p.name == s.name
      ensures Find(q.providers, s.name) == Some(p)
    {
      var i :| 0 <= i < |q.providers| && q.providers[i] == p;
      assert q.providers[i].name == s.name;
      OneOfThatName(q.providers, Find(q.providers, s.name).value, p);
    }
  }

  /** A roll is scaled to the total weight. */
  lemma TargetMeans(roll: real, ws: seq<real>)
    ensures Target(roll, ws) == roll * Sum(ws)
  {
  }

  lemma WeightedFirst(q: Query, snaps: seq<Snapshot>, roll: real, d: Decision, target: real) returns (j: nat)
    requires Routes(q, snaps, roll, d) && !d.degraded && q.strategy == WeightedRandom
    requires !(q.call in q.writeMethods && q.broadcastWrites)
    requires target == Target(roll, Weights(q, Available(q, snaps)))
    ensures Reaches(Weights(q, Available(q, snaps)), target, j)
    ensures d.providers != [] && d.providers[0] == Available(q, snaps)[j].name
  {
    var available := Available(q, snaps);
    var ws := Weights(q, available);
    j :| Reaches(ws, target, j) && d == Decision(Names(PrimaryFirst(available, j)), false, false);
  }

  lemma DistinctAt(s: seq<Snapshot>, i: nat, j: nat)
    requires Distinct(Names(s)) && i < |s| && j < |s|
    ensures s[i].name == s[j].name <==> i == j
  {
    assert Names(s)[i] == s[i].name && Names(s)[j] == s[j].name;
  }

  /**
    * The weighted strategy puts `available[i]` first exactly if the scaled roll lands in its interval
    * of the cumulative weights.
    */
  lemma WeightedPickExactly(q: Query, snaps: seq<Snapshot>, roll: real, d: Decision, i: nat, target: real)
    requires Routes(q, snaps, roll, d) && !d.degraded && q.strategy == WeightedRandom
    requires !(q.call in q.writeMethods && q.broadcastWrites)
    requires Distinct(ProviderNames(q.providers)) && Distinct(Names(snaps))
    requires i < |Available(q, snaps)| && target == Target(roll, Weights(q, Available(q, snaps)))
    ensures var ws := Weights(q, Available(q, snaps));
      && d.providers != []
      && (d.providers[0] == Available(q, snaps)[i].name <==>
            (i == 0 || Cumulative(ws, i) < target) && target <= Cumulative(ws, i + 1))
  {
    var j := WeightedFirst(q, snaps, roll, d, target);
    AvailableDistinct(q, snaps);
    FirstByInterval(Available(q, snaps), Weights(q, Available(q, snaps)), target, i, j);
  }

  lemma FirstByInterval(available: seq<Snapshot>, ws: seq<real>, target: real, i: nat, j: nat)
    requires Distinct(Names(available)) && |ws| == |available| && i < |ws| && Reaches(ws, target, j)
    requires forall k | 0 <= k < |ws| :: ws[k] > 0.0
    ensures available[j].name == available[i].name
       <==> (i == 0 || Cumulative(ws, i) < target) && target <= Cumulative(ws, i + 1)
  {
    DistinctAt(available, i, j);
    PickedExactlyOnOwnInterval(ws, target, i);
    OnePick(ws, target, i, j);
  }

  lemma OnePick(ws: seq<real>, target: real, i: nat, j: nat)
    requires i < |ws| && Reaches(ws, target, j)
    ensures Reaches(ws, target, i) <==> i == j
  {
  }
}
