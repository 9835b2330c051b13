/**
  * Concurrent probe loops of src/health.rs: each loop reports a round into the ring, then
  * stamps and merges its slots into its provider's health; providers come and go; the external
  * reference probes alongside. A run is any interleaving of these steps. A routing snapshot reads
  * the slots one provider at a time, then the reference, then the ring, and only then comes back to
  * each provider to measure its drift; probes may run in between all of these.
  */
module Drift {
  import opened Common
  import opened ProbeRing

  /** A provider's slots, and the round each was sampled in (`None` off the grid). */
  datatype Health = Health(slots: PerCommitment, rounds: PerCommitment)

  const NEW_HEALTH := Health(UNSEEN, UNSEEN)

  /** A probe answer in flight between reporting its round and updating health. */
  datatype Answer = Answer(round: Option<nat>, slots: PerCommitment)

  type LoopId = nat

  datatype State = State(
    log: seq<Sample>,                // every report made, which the program does not keep
    ring: Ring,
    healths: map<LoopId, Health>,    // also of removed providers whose loop is still in flight
    entries: map<string, LoopId>,    // the providers routing sees
    pending: map<LoopId, Answer>,
    reference: PerCommitment,
    referencePending: Option<Answer>)

  datatype Step =
    | AddProvider(name: string, id: LoopId)
    | RemoveProvider(name: string)
    | ProbeAnswer(id: LoopId, round: Option<nat>, slots: PerCommitment)
    | UpdateHealth(id: LoopId)
    | ReferenceAnswer(round: Option<nat>, slots: PerCommitment)
    | UpdateReference

  // ----- transitions

  /** Overlay probed values; a commitment whose probe leg failed keeps its old one. */
  function Overlay(probed: Option<nat>, value: Option<nat>, kept: Option<nat>): Option<nat> {
    if probed.Some? then value else kept
  }

  function Merge(kept: PerCommitment, probed: PerCommitment): PerCommitment {
    PerCommitment(
      Overlay(probed.processed, probed.processed, kept.processed),
      Overlay(probed.confirmed, probed.confirmed, kept.confirmed),
      Overlay(probed.finalized, probed.finalized, kept.finalized))
  }

  /** Stamp `round` on exactly the commitments that `Merge` overwrites. */
  function Stamp(rounds: PerCommitment, probed: PerCommitment, round: Option<nat>): PerCommitment {
    PerCommitment(
      Overlay(probed.processed, round, rounds.processed),
      Overlay(probed.confirmed, round, rounds.confirmed),
      Overlay(probed.finalized, round, rounds.finalized))
  }

  /** The round tips come first, so a snapshot never sees a slot without the round it belongs to. */
  function Reported(s: State, round: Option<nat>, slots: PerCommitment): State {
    match round
    case None => s
    case Some(r) => s.(log := s.log + [Sample(r, slots)], ring := Observed(s.ring, r, slots))
  }

  predicate Enabled(s: State, step: Step) {
    match step
    case AddProvider(_, id) => id !in s.healths
    case RemoveProvider(_) => true
    case ProbeAnswer(id, _, _) => id in s.healths && id !in s.pending
    case UpdateHealth(id) => id in s.healths && id in s.pending
    case ReferenceAnswer(_, _) => s.referencePending.None?
    case UpdateReference => s.referencePending.Some?
  }

  function Next(s: State, step: Step): State
    requires Enabled(s, step)
  {
    match step
    case AddProvider(name, id) => s.(healths := s.healths[id := NEW_HEALTH], entries := s.entries[name := id])
    case RemoveProvider(name) => s.(entries := s.entries - {name})
    case ProbeAnswer(id, round, slots) =>
      Reported(s, round, slots).(pending := s.pending[id := Answer(round, slots)])
    case UpdateHealth(id) =>
      var h, a := s.healths[id], s.pending[id];
      s.(healths := s.healths[id := Health(Merge(h.slots, a.slots), Stamp(h.rounds, a.slots, a.round))],
         pending := s.pending - {id})
    case ReferenceAnswer(round, slots) =>
      Reported(s, round, slots).(referencePending := Some(Answer(round, slots)))
    case UpdateReference =>
      s.(reference := Merge(s.reference, s.referencePending.value.slots), referencePending := None)
  }

  const START := State([], EMPTY_RING, map[], map[], map[], UNSEEN, None)

  /** The state after the first `k` of the steps. */
  ghost function At(steps: seq<Step>, k: nat): State
    requires k <= |steps|
  {
    if k == 0 then START else StepOrStay(At(steps, k - 1), steps[k - 1])
  }

  ghost function StepOrStay(s: State, step: Step): State {
    if Enabled(s, step) then Next(s, step) else s
  }

  /** Every step is enabled when it is taken. */
  ghost predicate IsRun(steps: seq<Step>) {
    forall k: nat :: EnabledAt(steps, k)
  }

  ghost predicate EnabledAt(steps: seq<Step>, k: nat) {
    k < |steps| ==> Enabled(At(steps, k), steps[k])
  }

  // ----- snapshots

  /** What a slot at commitment `c` is compared with: its own round's tip, or the latest one. */
  function Tip(latest: SlotTips, ring: Ring, c: Commitment, round: Option<nat>): nat {
    if round.Some? && Lookup(ring, round.value).Some?
    then Lookup(ring, round.value).value.Get(c)
    else latest.Get(c)
  }

  /** Saturating, as in the program. */
  function DriftOf(h: Health, c: Commitment, latest: SlotTips, ring: Ring): Option<nat> {
    match h.slots.Get(c)
    case None => None
    case Some(slot) =>
      var tip := Tip(latest, ring, c, h.rounds.Get(c));
      Some(if tip >= slot then tip - slot else 0)
  }

  function Worse(a: Option<nat>, b: Option<nat>): Option<nat> {
    if a.None? || (b.Some? && b.value > a.value) then b else a
  }

  /** The drift a provider is scored by. */
  function WorstDrift(h: Health, latest: SlotTips, ring: Ring): Option<nat> {
    Worse(Worse(DriftOf(h, Processed, latest, ring), DriftOf(h, Confirmed, latest, ring)),
          DriftOf(h, Finalized, latest, ring))
  }

  /** It is the largest drift at any commitment with a slot, and absent exactly without any slot. */
  lemma WorstDriftMeans(h: Health, latest: SlotTips, ring: Ring)
    ensures WorstDrift(h, latest, ring).None? <==> forall c: Commitment :: h.slots.Get(c).None?
    ensures WorstDrift(h, latest, ring).Some? ==>
      var worst := WorstDrift(h, latest, ring).value;
      && (exists c: Commitment :: DriftOf(h, c, latest, ring) == Some(worst))
      && (forall c: Commitment | DriftOf(h, c, latest, ring).Some? :: DriftOf(h, c, latest, ring).value <= worst)
  {
    if h.slots.Get(Processed).None? && h.slots.Get(Confirmed).None? && h.slots.Get(Finalized).None? {
      forall c: Commitment
        ensures h.slots.Get(c).None?
      {
        match c case Processed => case Confirmed => case Finalized =>
      }
    }
  }

  /** Every entry points at a known health. */
  ghost predicate Closed(s: State) {
    forall name | name in s.entries :: s.entries[name] in s.healths
  }

  /** What one pass over the providers read, and the reference after it. */
  datatype Pass = Pass(slots: map<LoopId, PerCommitment>, reference: PerCommitment)

  /** `tips` is at least every slot read, and the reference's. */
  ghost predicate Dominates(pass: Pass, tips: SlotTips, c: Commitment) {
    && (forall id | id in pass.slots :: OrZero(pass.slots[id].Get(c)) <= tips.Get(c))
    && OrZero(pass.reference.Get(c)) <= tips.Get(c)
  }

  /** The tip is one of the slots it is the maximum of. */
  ghost predicate Attained(pass: Pass, tips: SlotTips, c: Commitment) {
    || tips.Get(c) == 0
    || pass.reference.Get(c) == Some(tips.Get(c))
    || exists id :: id in pass.slots && pass.slots[id].Get(c) == Some(tips.Get(c))
  }

  ghost predicate IsLatest(pass: Pass, tips: SlotTips) {
    forall c: Commitment :: Dominates(pass, tips, c) && Attained(pass, tips, c)
  }

  lemma ObserveRaises(tips: SlotTips, slots: PerCommitment, c: Commitment)
    ensures Observe(tips, slots).Get(c) == Raise(tips.Get(c), slots.Get(c))
  {
  }

  /** The latest tips: one pass over the providers in any order, then the reference. */
  method LatestTips(pass: Pass) returns (tips: SlotTips)
    ensures IsLatest(pass, tips)
  {
    tips := NO_TIPS;
    var left := pass.slots.Keys;
    while left != {}
      invariant left <= pass.slots.Keys
      invariant forall c: Commitment, id | id in pass.slots && id !in left ::
        OrZero(pass.slots[id].Get(c)) <= tips.Get(c)
      invariant forall c: Commitment :: Attained(pass, tips, c)
      decreases left
    {
      var id :| id in left;
      var before := tips;
      tips := Observe(tips, pass.slots[id]);
      left := left - {id};
      forall c: Commitment
        ensures tips.Get(c) == Raise(before.Get(c), pass.slots[id].Get(c)) && Attained(pass, tips, c)
      {
        ObserveRaises(before, pass.slots[id], c);
        assert Attained(pass, before, c);
      }
    }
    var before := tips;
    tips := Observe(tips, pass.reference);
    forall c: Commitment
      ensures Dominates(pass, tips, c) && Attained(pass, tips, c)
    {
      ObserveRaises(before, pass.reference, c);
      assert Attained(pass, before, c);
    }
  }

  // ----- the invariant

  /** A slot stamped with a round was reported for that round. */
  ghost predicate Backed(log: seq<Sample>, h: Health, c: Commitment) {
    h.slots.Get(c).Some? && h.rounds.Get(c).Some? ==>
      exists s :: s in log && s.round == h.rounds.Get(c).value && s.slots.Get(c) == h.slots.Get(c)
  }

  ghost predicate Healthy(log: seq<Sample>, h: Health) {
    forall c: Commitment :: Backed(log, h, c)
  }

  ghost predicate AnswerLogged(log: seq<Sample>, a: Answer) {
    a.round.Some? ==> Sample(a.round.value, a.slots) in log
  }

  ghost predicate Inv(s: State) {
    && s.ring == Replay(s.log)
    && Closed(s)
    && (forall id | id in s.healths :: Healthy(s.log, s.healths[id]))
    && (forall id | id in s.pending :: AnswerLogged(s.log, s.pending[id]))
  }

  lemma HealthyGrows(log: seq<Sample>, s: Sample, h: Health)
    requires Healthy(log, h)
    ensures Healthy(log + [s], h)
  {
    forall c: Commitment
      ensures Backed(log + [s], h, c)
    {
      assert Backed(log, h, c);
      if h.slots.Get(c).Some? && h.rounds.Get(c).Some? {
        var x :| x in log && x.round == h.rounds.Get(c).value && x.slots.Get(c) == h.slots.Get(c);
        assert x in log + [s];
      }
    }
  }

  lemma ReportKeeps(s: State, round: Option<nat>, slots: PerCommitment)
    requires Inv(s)
    ensures Inv(Reported(s, round, slots))
    ensures AnswerLogged(Reported(s, round, slots).log, Answer(round, slots))
  {
    if round.Some? {
      var sample := Sample(round.value, slots);
      var log' := s.log + [sample];
      assert log'[|s.log|] == sample && log'[..|s.log|] == s.log;
      forall id | id in s.healths
        ensures Healthy(log', s.healths[id])
      {
        HealthyGrows(s.log, sample, s.healths[id]);
      }
    }
  }

  lemma UpdateKeepsHealthy(log: seq<Sample>, h: Health, a: Answer)
    requires Healthy(log, h) && AnswerLogged(log, a)
    ensures Healthy(log, Health(Merge(h.slots, a.slots), Stamp(h.rounds, a.slots, a.round)))
  {
    var h' := Health(Merge(h.slots, a.slots), Stamp(h.rounds, a.slots, a.round));
    forall c: Commitment
      ensures Backed(log, h', c)
    {
      assert Backed(log, h, c);
      if a.slots.Get(c).Some? && a.round.Some? {
        assert Sample(a.round.value, a.slots) in log;
      }
    }
  }

  lemma StepKeeps(s: State, step: Step)
    requires Enabled(s, step) && Inv(s)
    ensures Inv(Next(s, step))
  {
    match step {
      case ProbeAnswer(_, round, slots) => ReportKeeps(s, round, slots);
      case ReferenceAnswer(round, slots) => ReportKeeps(s, round, slots);
      case UpdateHealth(id) => UpdateKeepsHealthy(s.log, s.healths[id], s.pending[id]);
      case _ =>
    }
  }

  lemma {:induction false} RunKeeps(steps: seq<Step>, k: nat)
    requires IsRun(steps) && k <= |steps|
    ensures Inv(At(steps, k))
  {
    if k > 0 {
      RunKeeps(steps, k - 1);
      assert EnabledAt(steps, k - 1);
      StepKeeps(At(steps, k - 1), steps[k - 1]);
    }
  }

  // ----- a snapshot, spread over a run

  /**
    * When a snapshot did what, as numbers of steps of the run taken before it: it lists the
    * providers, reads the slots of each, reads the reference, copies the ring, and comes back to
    * measure each provider.
    */
  datatype Snapshot = Snapshot(
    listed: nat, read: map<LoopId, nat>, referenceRead: nat, copied: nat, measured: map<LoopId, nat>)

  ghost predicate Taken(steps: seq<Step>, snap: Snapshot) {
    && IsRun(steps) && snap.listed <= snap.referenceRead <= snap.copied <= |steps|
    && var s := At(steps, snap.listed);
    && snap.read.Keys == snap.measured.Keys == (set name | name in s.entries :: s.entries[name])
    && (forall id | id in snap.read ::
          snap.listed <= snap.read[id] <= snap.referenceRead && snap.copied <= snap.measured[id] <= |steps|)
  }

  lemma NextState(steps: seq<Step>, k: nat)
    requires IsRun(steps) && k < |steps|
    ensures Enabled(At(steps, k), steps[k]) && At(steps, k + 1) == Next(At(steps, k), steps[k])
  {
    assert EnabledAt(steps, k);
  }

  ghost predicate LogPrefix(a: seq<Sample>, b: seq<Sample>) {
    |a| <= |b| && b[..|a|] == a
  }

  /** Nothing reported is forgotten, and no health state goes away. */
  lemma {:induction false} RunGrows(steps: seq<Step>, i: nat, j: nat)
    requires IsRun(steps) && i <= j <= |steps|
    ensures LogPrefix(At(steps, i).log, At(steps, j).log)
    ensures At(steps, i).healths.Keys <= At(steps, j).healths.Keys
    decreases j - i
  {
    if i < j {
      RunGrows(steps, i, j - 1);
      NextState(steps, j - 1);
      StepGrows(At(steps, j - 1), steps[j - 1]);
    }
  }

  lemma StepGrows(s: State, step: Step)
    requires Enabled(s, step)
    ensures LogPrefix(s.log, Next(s, step).log) && s.healths.Keys <= Next(s, step).healths.Keys
  {
  }

  /** Step `k` overwrites the slot of loop `id` at commitment `c`. */
  ghost predicate Overwrites(steps: seq<Step>, k: nat, id: LoopId, c: Commitment)
    requires IsRun(steps) && k < |steps|
  {
    && steps[k] == UpdateHealth(id)
    && id in At(steps, k).pending && At(steps, k).pending[id].slots.Get(c).Some?
  }

  ghost predicate Untouched(steps: seq<Step>, i: nat, j: nat, id: LoopId, c: Commitment)
    requires IsRun(steps) && j <= |steps|
  {
    forall k: nat | i <= k < j :: !Overwrites(steps, k, id, c)
  }

  ghost predicate SameSample(h: Health, h': Health, c: Commitment) {
    h.slots.Get(c) == h'.slots.Get(c) && h.rounds.Get(c) == h'.rounds.Get(c)
  }

  lemma StepKeepsSample(steps: seq<Step>, k: nat, id: LoopId, c: Commitment)
    requires IsRun(steps) && k < |steps| && id in At(steps, k).healths && !Overwrites(steps, k, id, c)
    ensures id in At(steps, k + 1).healths
    ensures SameSample(At(steps, k).healths[id], At(steps, k + 1).healths[id], c)
  {
    NextState(steps, k);
  }

  lemma {:induction false} UntouchedKeepsSample(steps: seq<Step>, i: nat, j: nat, id: LoopId, c: Commitment)
    requires IsRun(steps) && i <= j <= |steps| && id in At(steps, i).healths
    requires Untouched(steps, i, j, id, c)
    ensures id in At(steps, j).healths
    ensures SameSample(At(steps, i).healths[id], At(steps, j).healths[id], c)
    decreases j - i
  {
    if i < j {
      UntouchedKeepsSample(steps, i, j - 1, id, c);
      StepKeepsSample(steps, j - 1, id, c);
    }
  }

  lemma ListedIsKnown(steps: seq<Step>, snap: Snapshot, id: LoopId, k: nat)
    requires Taken(steps, snap) && id in snap.read && snap.listed <= k <= |steps|
    ensures id in At(steps, k).healths
  {
    RunKeeps(steps, snap.listed);
    RunGrows(steps, snap.listed, k);
  }

  lemma AllListedAreKnown(steps: seq<Step>, snap: Snapshot)
    requires Taken(steps, snap)
    ensures forall id | id in snap.read :: id in At(steps, snap.read[id]).healths
    ensures forall id | id in snap.measured :: id in At(steps, snap.measured[id]).healths
  {
    forall id | id in snap.read
      ensures id in At(steps, snap.read[id]).healths && id in At(steps, snap.measured[id]).healths
    {
      ListedIsKnown(steps, snap, id, snap.read[id]);
      ListedIsKnown(steps, snap, id, snap.measured[id]);
    }
  }

  /** What the pass of the snapshot read. */
  ghost function PassOf(steps: seq<Step>, snap: Snapshot): Pass
    requires Taken(steps, snap)
  {
    AllListedAreKnown(steps, snap);
    Pass(map id | id in snap.read :: At(steps, snap.read[id]).healths[id].slots,
         At(steps, snap.referenceRead).reference)
  }

  ghost function Copied(steps: seq<Step>, snap: Snapshot): State
    requires Taken(steps, snap)
  {
    At(steps, snap.copied)
  }

  ghost function Measured(steps: seq<Step>, snap: Snapshot, id: LoopId): Health
    requires Taken(steps, snap) && id in snap.measured
  {
    AllListedAreKnown(steps, snap);
    At(steps, snap.measured[id]).healths[id]
  }

  // ----- drift

  /** The slot measured is at most the tip it is compared with, so its drift is the true gap. */
  ghost predicate Exact(h: Health, c: Commitment, latest: SlotTips, ring: Ring) {
    match h.slots.Get(c)
    case None => DriftOf(h, c, latest, ring) == None
    case Some(slot) =>
      var tip := Tip(latest, ring, c, h.rounds.Get(c));
      slot <= tip && DriftOf(h, c, latest, ring) == Some(tip - slot)
  }

  /** The ring copied still holds the round the slot was sampled in. */
  ghost predicate InCopy(h: Health, c: Commitment, ring: Ring) {
    h.rounds.Get(c).Some? && Lookup(ring, h.rounds.Get(c).value).Some?
  }

  /** A slot that was not overwritten since the pass read it is one of those the pass read. */
  lemma UntouchedWasRead(steps: seq<Step>, snap: Snapshot, id: LoopId, c: Commitment)
    requires Taken(steps, snap) && id in snap.read
    requires Untouched(steps, snap.read[id], snap.measured[id], id, c)
    ensures Measured(steps, snap, id).slots.Get(c) == PassOf(steps, snap).slots[id].Get(c)
    ensures Backed(Copied(steps, snap).log, Measured(steps, snap, id), c)
  {
    var i, j := snap.read[id], snap.measured[id];
    AllListedAreKnown(steps, snap);
    UntouchedKeepsSample(steps, i, j, id, c);
    RunKeeps(steps, i);
    RunGrows(steps, i, snap.copied);
    BackedByMore(At(steps, i).log, Copied(steps, snap).log, At(steps, i).healths[id], c);
  }

  lemma BackedByMore(log: seq<Sample>, more: seq<Sample>, h: Health, c: Commitment)
    requires LogPrefix(log, more) && Healthy(log, h)
    ensures Backed(more, h, c)
  {
    assert Backed(log, h, c);
    if h.slots.Get(c).Some? && h.rounds.Get(c).Some? {
      var x :| x in log && x.round == h.rounds.Get(c).value && x.slots.Get(c) == h.slots.Get(c);
      var n :| 0 <= n < |log| && log[n] == x;
      assert more[..|log|][n] == x;
    }
  }

  lemma CopyRefines(steps: seq<Step>, snap: Snapshot)
    requires Taken(steps, snap)
    ensures Copied(steps, snap).ring == Replay(Copied(steps, snap).log)
  {
    RunKeeps(steps, snap.copied);
  }

  /**
    * In every interleaving, whatever runs between the reads of a snapshot: if the provider's slot is
    * not overwritten from its first read to its second, the slot is at most the tip it is compared
    * with, and its drift is the exact gap. Its round, if it has one, was reported before the ring
    * was copied; while the copy holds it, that gap is to the best of its reports until then.
    */
  lemma DriftIsExact(steps: seq<Step>, snap: Snapshot, id: LoopId, c: Commitment, latest: SlotTips)
    requires Taken(steps, snap) && id in snap.read && IsLatest(PassOf(steps, snap), latest)
    requires Untouched(steps, snap.read[id], snap.measured[id], id, c)
    ensures var h, copy := Measured(steps, snap, id), Copied(steps, snap);
      && Exact(h, c, latest, copy.ring)
      && (h.slots.Get(c).Some? && h.rounds.Get(c).Some? ==> ReportedIn(copy.log, h.rounds.Get(c).value))
      && (InCopy(h, c, copy.ring) ==>
            IsBest(copy.log, h.rounds.Get(c).value, c, Tip(latest, copy.ring, c, h.rounds.Get(c))))
  {
    var h, copy := Measured(steps, snap, id), Copied(steps, snap);
    UntouchedWasRead(steps, snap, id, c);
    CopyRefines(steps, snap);
    assert Dominates(PassOf(steps, snap), latest, c);
    if InCopy(h, c, copy.ring) {
      RingRefinesLog(copy.log, h.rounds.Get(c).value);
      assert IsBest(copy.log, h.rounds.Get(c).value, c, Tip(latest, copy.ring, c, h.rounds.Get(c)));
    }
  }

  /** A report of the slot's round, made before the ring was copied, reached the slot. */
  ghost predicate ReachedInRound(log: seq<Sample>, r: nat, c: Commitment, slot: nat) {
    exists s :: s in log && s.round == r && OrZero(s.slots.Get(c)) >= slot
  }

  /** A slot read in the pass, or the reference, reached the slot. */
  ghost predicate ReachedInPass(pass: Pass, c: Commitment, slot: nat) {
    || slot == 0
    || OrZero(pass.reference.Get(c)) >= slot
    || exists id :: id in pass.slots && OrZero(pass.slots[id].Get(c)) >= slot
  }

  lemma BestReaches(log: seq<Sample>, r: nat, c: Commitment, tip: nat, slot: nat)
    requires ReportedIn(log, r) && IsBest(log, r, c, tip)
    ensures slot <= tip <==> ReachedInRound(log, r, c, slot)
  {
    if slot <= tip {
      if tip == 0 {
        var s :| s in log && s.round == r;
      } else {
        var s :| s in log && s.round == r && s.slots.Get(c) == Some(tip);
      }
    }
  }

  lemma LatestReaches(pass: Pass, tips: SlotTips, c: Commitment, slot: nat)
    requires Dominates(pass, tips, c) && Attained(pass, tips, c)
    ensures slot <= tips.Get(c) <==> ReachedInPass(pass, c, slot)
  {
  }

  /**
    * In general a slot overwritten between the two reads may be ahead of everything collected, and
    * then the drift is 0 by saturation. It is exact exactly if something collected had reached the
    * slot: a report of its own round made before the copy, if the copy holds that round, and
    * otherwise a slot read in the pass.
    */
  lemma DriftExactExactly(
      steps: seq<Step>, snap: Snapshot, id: LoopId, c: Commitment, latest: SlotTips, slot: nat)
    requires Taken(steps, snap) && id in snap.read && IsLatest(PassOf(steps, snap), latest)
    requires Measured(steps, snap, id).slots.Get(c) == Some(slot)
    ensures var h, copy := Measured(steps, snap, id), Copied(steps, snap);
            Exact(h, c, latest, copy.ring) <==>
              if InCopy(h, c, copy.ring) then ReachedInRound(copy.log, h.rounds.Get(c).value, c, slot)
              else ReachedInPass(PassOf(steps, snap), c, slot)
  {
    assert Dominates(PassOf(steps, snap), latest, c) && Attained(PassOf(steps, snap), latest, c);
    CopyRefines(steps, snap);
    ExactByReach(Measured(steps, snap, id), c, latest, PassOf(steps, snap), Copied(steps, snap), slot);
  }

  lemma ExactByReach(h: Health, c: Commitment, latest: SlotTips, pass: Pass, copy: State, slot: nat)
    requires copy.ring == Replay(copy.log) && h.slots.Get(c) == Some(slot)
    requires Dominates(pass, latest, c) && Attained(pass, latest, c)
    ensures Exact(h, c, latest, copy.ring) <==>
              if InCopy(h, c, copy.ring) then ReachedInRound(copy.log, h.rounds.Get(c).value, c, slot)
              else ReachedInPass(pass, c, slot)
  {
    if InCopy(h, c, copy.ring) {
      var r := h.rounds.Get(c).value;
      var tip := Lookup(copy.ring, r).value.Get(c);
      RingRefinesLog(copy.log, r);
      assert IsBest(copy.log, r, c, tip);
      BestReaches(copy.log, r, c, tip, slot);
    } else {
      LatestReaches(pass, latest, c, slot);
    }
  }

  // ----- a probe between the copy and the second read

  const SLOT_100 := PerCommitment(Some(100), None, None)
  const SLOT_105 := PerCommitment(Some(105), None, None)
  const ROUND_5 := PerCommitment(Some(5), None, None)
  const ROUND_6 := PerCommitment(Some(6), None, None)

  const TWO_PROBES := [
    AddProvider("p", 0),
    ProbeAnswer(0, Some(5), SLOT_100),
    UpdateHealth(0),
    ProbeAnswer(0, Some(6), SLOT_105),
    UpdateHealth(0)]

  /** `s` is what the program keeps after the first `k` steps. */
  ghost predicate Reaches(steps: seq<Step>, k: nat, s: State) {
    && k <= |steps| && At(steps, k) == s
    && (forall i: nat | i < k :: EnabledAt(steps, i))
  }

  lemma ReachesNext(steps: seq<Step>, k: nat, s: State, step: Step)
    requires k < |steps| && steps[k] == step && Reaches(steps, k, s) && Enabled(s, step)
    ensures Reaches(steps, k + 1, Next(s, step))
  {
  }

  const PROBED := START.(
    log := [Sample(5, SLOT_100)],
    ring := Observed(EMPTY_RING, 5, SLOT_100),
    healths := map[0 := Health(SLOT_100, ROUND_5)],
    entries := map["p" := 0])

  lemma AfterFirstProbe()
    ensures Reaches(TWO_PROBES, 3, PROBED)
  {
    var steps := TWO_PROBES;
    ReachesNext(steps, 0, START, AddProvider("p", 0));
    var s1 := Next(START, AddProvider("p", 0));
    ReachesNext(steps, 1, s1, ProbeAnswer(0, Some(5), SLOT_100));
    var s2 := Next(s1, ProbeAnswer(0, Some(5), SLOT_100));
    ReachesNext(steps, 2, s2, UpdateHealth(0));
    assert Next(s2, UpdateHealth(0)) == PROBED;
  }

  lemma AfterSecondProbe()
    ensures IsRun(TWO_PROBES)
    ensures At(TWO_PROBES, 5).healths == map[0 := Health(SLOT_105, ROUND_6)]
  {
    var steps := TWO_PROBES;
    AfterFirstProbe();
    ReachesNext(steps, 3, PROBED, ProbeAnswer(0, Some(6), SLOT_105));
    var s4 := Next(PROBED, ProbeAnswer(0, Some(6), SLOT_105));
    ReachesNext(steps, 4, s4, UpdateHealth(0));
    assert Reaches(steps, 5, Next(s4, UpdateHealth(0)));
  }

  const TORN := Snapshot(3, map[0 := 3], 3, 3, map[0 := 5])

  lemma TornIsTaken()
    ensures Taken(TWO_PROBES, TORN)
    ensures PassOf(TWO_PROBES, TORN) == Pass(map[0 := SLOT_100], UNSEEN)
    ensures Copied(TWO_PROBES, TORN).ring == Observed(EMPTY_RING, 5, SLOT_100)
    ensures Measured(TWO_PROBES, TORN, 0) == Health(SLOT_105, ROUND_6)
  {
    AfterFirstProbe();
    AfterSecondProbe();
    var s := At(TWO_PROBES, 3);
    assert s == PROBED && s.entries["p"] == 0;
    assert (set name | name in s.entries :: s.entries[name]) == {0};
  }

  /**
    * The round tips are reported first so that a snapshot never sees a slot without the round it
    * belongs to. A snapshot that copies the ring before the report and measures after the update
    * does: slot 105 of round 6 is compared with tip 100, and the drift of 0 is not a gap.
    */
  lemma SlotWithoutItsRound()
    ensures Taken(TWO_PROBES, TORN)
    ensures IsLatest(PassOf(TWO_PROBES, TORN), SlotTips(100, 0, 0))
    ensures var h, ring := Measured(TWO_PROBES, TORN, 0), Copied(TWO_PROBES, TORN).ring;
      && h == Health(SLOT_105, ROUND_6)
      && Lookup(ring, 6).None?
      && Tip(SlotTips(100, 0, 0), ring, Processed, Some(6)) == 100
      && DriftOf(h, Processed, SlotTips(100, 0, 0), ring) == Some(0)
      && !Exact(h, Processed, SlotTips(100, 0, 0), ring)
  {
    TornIsTaken();
    TornGap(Measured(TWO_PROBES, TORN, 0), PassOf(TWO_PROBES, TORN), Copied(TWO_PROBES, TORN).ring);
  }

  lemma TornGap(h: Health, pass: Pass, ring: Ring)
    requires h == Health(SLOT_105, ROUND_6) && pass == Pass(map[0 := SLOT_100], UNSEEN)
    requires ring == Observed(EMPTY_RING, 5, SLOT_100)
    ensures var tips := SlotTips(100, 0, 0);
      && IsLatest(pass, tips)
      && Lookup(ring, 6).None?
      && Tip(tips, ring, Processed, Some(6)) == 100
      && DriftOf(h, Processed, tips, ring) == Some(0)
      && !Exact(h, Processed, tips, ring)
  {
    assert pass.slots[0].Get(Processed) == Some(100);
  }

  /** A stamped slot whose round has left the ring was overtaken by at least four rounds. */
  lemma FallbackMeansOvertaken(steps: seq<Step>, id: LoopId, c: Commitment)
    requires IsRun(steps) && id in At(steps, |steps|).healths
    requires var s, h := At(steps, |steps|), At(steps, |steps|).healths[id];
             && h.slots.Get(c).Some? && h.rounds.Get(c).Some?
             && Lookup(s.ring, h.rounds.Get(c).value).None?
    ensures var s, h := At(steps, |steps|), At(steps, |steps|).healths[id];
            exists x :: x in s.log && x.round >= h.rounds.Get(c).value + TIP_ROUNDS
  {
    RunKeeps(steps, |steps|);
    var s := At(steps, |steps|);
    assert Backed(s.log, s.healths[id], c);
    OvertakenInLog(s.log, s.healths[id], c, s.healths[id].rounds.Get(c).value);
  }

  /** So a snapshot falls back to the latest tip for a slot it read before only if that was overtaken. */
  lemma LatestTipMeansOvertaken(steps: seq<Step>, snap: Snapshot, id: LoopId, c: Commitment, r: nat)
    requires Taken(steps, snap) && id in snap.read
    requires Untouched(steps, snap.read[id], snap.measured[id], id, c)
    requires var h := Measured(steps, snap, id);
             h.slots.Get(c).Some? && h.rounds.Get(c) == Some(r) && !InCopy(h, c, Copied(steps, snap).ring)
    ensures exists x :: x in Copied(steps, snap).log && x.round >= r + TIP_ROUNDS
  {
    UntouchedWasRead(steps, snap, id, c);
    CopyRefines(steps, snap);
    OvertakenInLog(Copied(steps, snap).log, Measured(steps, snap, id), c, r);
  }

  lemma OvertakenInLog(log: seq<Sample>, h: Health, c: Commitment, r: nat)
    requires Backed(log, h, c) && h.slots.Get(c).Some? && h.rounds.Get(c) == Some(r)
    requires Lookup(Replay(log), r).None?
    ensures exists s :: s in log && s.round >= r + TIP_ROUNDS
  {
    RingRefinesLog(log, r);
    var later :| later in log && later.round % TIP_ROUNDS == r % TIP_ROUNDS && later.round > r;
    assert later.round >= r + TIP_ROUNDS;
  }
}
