/**
  * What the probe loops of src/health.rs keep, from the steps of a run alone: the slots of a provider
  * and of the reference are those of their last completed answers, and the providers listed are
  * those added and not removed since.
  */
module ProbeHistory {
  import opened Common
  import opened ProbeRing
  import opened Drift

  /** A slot and the round it was sampled in, if it was on the grid. */
  datatype Sampled = Sampled(slot: nat, round: Option<nat>)

  // ----- the last completed answers

  /** The answer loop `id` has reported and not yet stored, after `k` steps. */
  ghost function InFlight(steps: seq<Step>, k: nat, id: LoopId): Option<Answer>
    requires k <= |steps|
  {
    if k == 0 then None
    else match steps[k - 1]
      case ProbeAnswer(id', round, slots) =>
        if id' == id then Some(Answer(round, slots)) else InFlight(steps, k - 1, id)
      case UpdateHealth(id') => if id' == id then None else InFlight(steps, k - 1, id)
      case _ => InFlight(steps, k - 1, id)
  }

  /** The last slot loop `id` stored at commitment `c`; a leg that failed carries none. */
  ghost function LastStored(steps: seq<Step>, k: nat, id: LoopId, c: Commitment): Option<Sampled>
    requires k <= |steps|
  {
    if k == 0 then None
    else match steps[k - 1]
      case AddProvider(_, id') => if id' == id then None else LastStored(steps, k - 1, id, c)
      case UpdateHealth(id') =>
        var answer := InFlight(steps, k - 1, id);
        if id' == id && answer.Some? && answer.value.slots.Get(c).Some?
        then Some(Sampled(answer.value.slots.Get(c).value, answer.value.round))
        else LastStored(steps, k - 1, id, c)
      case _ => LastStored(steps, k - 1, id, c)
  }

  ghost function ReferenceInFlight(steps: seq<Step>, k: nat): Option<PerCommitment>
    requires k <= |steps|
  {
    if k == 0 then None
    else match steps[k - 1]
      case ReferenceAnswer(_, slots) => Some(slots)
      case UpdateReference => None
      case _ => ReferenceInFlight(steps, k - 1)
  }

  ghost function LastReference(steps: seq<Step>, k: nat, c: Commitment): Option<nat>
    requires k <= |steps|
  {
    if k == 0 then None
    else if steps[k - 1].UpdateReference? then
      var answer := ReferenceInFlight(steps, k - 1);
      if answer.Some? && answer.value.Get(c).Some? then answer.value.Get(c) else LastReference(steps, k - 1, c)
    else LastReference(steps, k - 1, c)
  }

  /** The loop that serves `name` after `k` steps. */
  ghost function Serving(steps: seq<Step>, k: nat, name: string): Option<LoopId>
    requires k <= |steps|
  {
    if k == 0 then None
    else match steps[k - 1]
      case AddProvider(name', id) => if name' == name then Some(id) else Serving(steps, k - 1, name)
      case RemoveProvider(name') => if name' == name then None else Serving(steps, k - 1, name)
      case _ => Serving(steps, k - 1, name)
  }

  // ----- what the state holds

  ghost predicate HoldsAnswers(s: State, steps: seq<Step>, k: nat)
    requires k <= |steps|
  {
    && (forall id :: id in s.pending <==> InFlight(steps, k, id).Some?)
    && (forall id | id in s.pending :: InFlight(steps, k, id) == Some(s.pending[id]))
    && (s.referencePending.Some? <==> ReferenceInFlight(steps, k).Some?)
    && (s.referencePending.Some? ==> Some(s.referencePending.value.slots) == ReferenceInFlight(steps, k))
  }

  lemma {:induction false} AnswersHeld(steps: seq<Step>, k: nat)
    requires IsRun(steps) && k <= |steps|
    ensures HoldsAnswers(At(steps, k), steps, k)
  {
    if k > 0 {
      AnswersHeld(steps, k - 1);
      NextState(steps, k - 1);
    }
  }

  ghost predicate HoldsSlot(h: Health, c: Commitment, last: Option<Sampled>) {
    match last
    case None => h.slots.Get(c) == None
    case Some(Sampled(slot, round)) => h.slots.Get(c) == Some(slot) && h.rounds.Get(c) == round
  }

  lemma MergeMeans(h: Health, a: Answer, c: Commitment)
    ensures var h' := Health(Merge(h.slots, a.slots), Stamp(h.rounds, a.slots, a.round));
            if a.slots.Get(c).Some? then h'.slots.Get(c) == a.slots.Get(c) && h'.rounds.Get(c) == a.round
            else h'.slots.Get(c) == h.slots.Get(c) && h'.rounds.Get(c) == h.rounds.Get(c)
  {
  }

  /**
    * At every point of every run, and at each commitment, a provider's slot and round are those of the
    * last answer of its own loop that was stored and carried one, on the grid or off it.
    */
  lemma {:induction false} SlotIsLastStored(steps: seq<Step>, k: nat, id: LoopId, c: Commitment)
    requires IsRun(steps) && k <= |steps| && id in At(steps, k).healths
    ensures HoldsSlot(At(steps, k).healths[id], c, LastStored(steps, k, id, c))
  {
    if k > 0 {
      NextState(steps, k - 1);
      AnswersHeld(steps, k - 1);
      var s, step := At(steps, k - 1), steps[k - 1];
      if id in s.healths {
        SlotIsLastStored(steps, k - 1, id, c);
        if step == UpdateHealth(id) {
          MergeMeans(s.healths[id], s.pending[id], c);
        }
      }
    }
  }

  lemma MergeReferenceMeans(kept: PerCommitment, probed: PerCommitment, c: Commitment)
    ensures Merge(kept, probed).Get(c) == if probed.Get(c).Some? then probed.Get(c) else kept.Get(c)
  {
  }

  /** At each commitment the reference is the slot of its last stored answer that carried one. */
  lemma {:induction false} ReferenceIsLastStored(steps: seq<Step>, k: nat, c: Commitment)
    requires IsRun(steps) && k <= |steps|
    ensures At(steps, k).reference.Get(c) == LastReference(steps, k, c)
  {
    if k > 0 {
      NextState(steps, k - 1);
      AnswersHeld(steps, k - 1);
      ReferenceIsLastStored(steps, k - 1, c);
      var s := At(steps, k - 1);
      if steps[k - 1].UpdateReference? {
        MergeReferenceMeans(s.reference, s.referencePending.value.slots, c);
      }
    }
  }

  /** The providers listed are those added and not removed since, each with the loop it was added with. */
  lemma {:induction false} EntriesFollowSteps(steps: seq<Step>, k: nat, name: string)
    requires IsRun(steps) && k <= |steps|
    ensures name in At(steps, k).entries <==> Serving(steps, k, name).Some?
    ensures name in At(steps, k).entries ==> Serving(steps, k, name) == Some(At(steps, k).entries[name])
  {
    if k > 0 {
      NextState(steps, k - 1);
      EntriesFollowSteps(steps, k - 1, name);
    }
  }

  /** Every report with a round is in the log, and nothing else: the log is what was reported, in order. */
  ghost function Reports(steps: seq<Step>, k: nat): seq<Sample>
    requires k <= |steps|
  {
    if k == 0 then []
    else match steps[k - 1]
      case ProbeAnswer(_, Some(round), slots) => Reports(steps, k - 1) + [Sample(round, slots)]
      case ReferenceAnswer(Some(round), slots) => Reports(steps, k - 1) + [Sample(round, slots)]
      case _ => Reports(steps, k - 1)
  }

  lemma {:induction false} LogIsReports(steps: seq<Step>, k: nat)
    requires IsRun(steps) && k <= |steps|
    ensures At(steps, k).log == Reports(steps, k)
  {
    if k > 0 {
      NextState(steps, k - 1);
      LogIsReports(steps, k - 1);
    }
  }

  // ----- what the tips are at least

  /**
    * The latest tip of a snapshot is at least the last answer the reference had stored when it was
    * read, and at least the last one every listed provider had stored when it was.
    */
  lemma LatestIsAtLeastStored(steps: seq<Step>, snap: Snapshot, id: LoopId, c: Commitment, latest: SlotTips)
    requires Taken(steps, snap) && id in snap.read && IsLatest(PassOf(steps, snap), latest)
    ensures LastReference(steps, snap.referenceRead, c).Some? ==>
      LastReference(steps, snap.referenceRead, c).value <= latest.Get(c)
    ensures LastStored(steps, snap.read[id], id, c).Some? ==>
      LastStored(steps, snap.read[id], id, c).value.slot <= latest.Get(c)
  {
    AllListedAreKnown(steps, snap);
    ReferenceIsLastStored(steps, snap.referenceRead, c);
    SlotIsLastStored(steps, snap.read[id], id, c);
    var pass := PassOf(steps, snap);
    assert Dominates(pass, latest, c);
    assert id in pass.slots && pass.slots[id] == At(steps, snap.read[id]).healths[id].slots;
  }

  /** So a provider sampled off the grid drifts by at least its gap to the reference. */
  lemma ReferencePinsDrift(steps: seq<Step>, snap: Snapshot, id: LoopId, c: Commitment, latest: SlotTips)
    requires Taken(steps, snap) && id in snap.read && IsLatest(PassOf(steps, snap), latest)
    requires LastReference(steps, snap.referenceRead, c).Some?
    requires LastStored(steps, snap.measured[id], id, c).Some?
    requires LastStored(steps, snap.measured[id], id, c).value.round == None
    ensures var drift := DriftOf(Measured(steps, snap, id), c, latest, Copied(steps, snap).ring);
            var slot := LastStored(steps, snap.measured[id], id, c).value.slot;
            drift.Some? && drift.value >= LastReference(steps, snap.referenceRead, c).value - slot
  {
    AllListedAreKnown(steps, snap);
    SlotIsLastStored(steps, snap.measured[id], id, c);
    LatestIsAtLeastStored(steps, snap, id, c, latest);
  }
}
