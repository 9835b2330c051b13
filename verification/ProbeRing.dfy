/**
  * Probe rounds of src/health.rs: the four-slot ring of per-round tips, and the proof that it
  * refines the full log of everything ever reported.
  */
module ProbeRing {
  import opened Common

  datatype Commitment = Processed | Confirmed | Finalized

  /** One optional value per commitment: slots probed, or the rounds they were probed in. */
  datatype PerCommitment = PerCommitment(processed: Option<nat>, confirmed: Option<nat>, finalized: Option<nat>) {
    function Get(c: Commitment): Option<nat> {
      match c
      case Processed => processed
      case Confirmed => confirmed
      case Finalized => finalized
    }
  }

  const UNSEEN := PerCommitment(None, None, None)

  datatype SlotTips = SlotTips(processed: nat, confirmed: nat, finalized: nat) {
    function Get(c: Commitment): nat {
      match c
      case Processed => processed
      case Confirmed => confirmed
      case Finalized => finalized
    }
  }

  const NO_TIPS := SlotTips(0, 0, 0)

  function OrZero(slot: Option<nat>): nat {
    if slot.Some? then slot.value else 0
  }

  function Raise(tip: nat, slot: Option<nat>): nat {
    Max(tip, OrZero(slot))
  }

  function Observe(tips: SlotTips, slots: PerCommitment): SlotTips {
    SlotTips(
      Raise(tips.processed, slots.processed),
      Raise(tips.confirmed, slots.confirmed),
      Raise(tips.finalized, slots.finalized))
  }

  const TIP_ROUNDS: nat := 4

  datatype Cell = Cell(round: nat, tips: SlotTips)

  type Ring = r: seq<Option<Cell>> | |r| == TIP_ROUNDS witness [None, None, None, None]

  const EMPTY_RING: Ring := [None, None, None, None]

  function ObserveCell(cell: Option<Cell>, round: nat, slots: PerCommitment): Option<Cell> {
    if cell.Some? && cell.value.round == round then Some(Cell(round, Observe(cell.value.tips, slots)))
    else if cell.Some? && cell.value.round > round then cell
    else Some(Cell(round, Observe(NO_TIPS, slots)))
  }

  function Observed(ring: Ring, round: nat, slots: PerCommitment): Ring {
    ring[round % TIP_ROUNDS := ObserveCell(ring[round % TIP_ROUNDS], round, slots)]
  }

  function Lookup(ring: Ring, round: nat): Option<SlotTips> {
    var cell := ring[round % TIP_ROUNDS];
    if cell.Some? && cell.value.round == round then Some(cell.value.tips) else None
  }

  /** The ring as the program keeps it: a fixed array updated in place. */
  class RoundTips {
    const cells: array<Option<Cell>>

    ghost predicate Valid()
      reads this
    {
      cells.Length == TIP_ROUNDS
    }

    ghost function Contents(): Ring
      requires Valid()
      reads this, cells
    {
      cells[..]
    }

    constructor ()
      ensures Valid() && fresh(cells) && Contents() == EMPTY_RING
    {
      cells := new Option<Cell>[4](_ => None);
    }

    method Report(round: nat, slots: PerCommitment)
      requires Valid()
      modifies cells
      ensures Contents() == Observed(old(Contents()), round, slots)
    {
      var k := round % TIP_ROUNDS;
      match cells[k] {
        case Some(Cell(r, tips)) =>
          if r == round {
            cells[k] := Some(Cell(round, Observe(tips, slots)));
          } else if r < round {
            cells[k] := Some(Cell(round, Observe(NO_TIPS, slots)));
          }
        case None =>
          cells[k] := Some(Cell(round, Observe(NO_TIPS, slots)));
      }
      assert forall j | 0 <= j < 4 && j != k :: cells[j] == old(cells[..])[j];
    }

    method Get(round: nat) returns (tips: Option<SlotTips>)
      requires Valid()
      ensures tips == Lookup(Contents(), round)
    {
      var cell := cells[round % TIP_ROUNDS];
      tips := if cell.Some? && cell.value.round == round then Some(cell.value.tips) else None;
    }
  }

  // ----- the full log

  datatype Sample = Sample(round: nat, slots: PerCommitment)

  function Replay(log: seq<Sample>): Ring {
    if log == [] then EMPTY_RING
    else
      var last := log[|log| - 1];
      Observed(Replay(log[..|log| - 1]), last.round, last.slots)
  }

  ghost predicate ReportedIn(log: seq<Sample>, round: nat) {
    exists s :: s in log && s.round == round
  }

  /** No larger round shares the ring position of `round`. */
  ghost predicate Latest(log: seq<Sample>, round: nat) {
    forall s | s in log && s.round % TIP_ROUNDS == round % TIP_ROUNDS :: s.round <= round
  }

  /** `tip` is the largest slot any report of `round` carried at commitment `c`, or 0. */
  ghost predicate IsBest(log: seq<Sample>, round: nat, c: Commitment, tip: nat) {
    && (forall s | s in log && s.round == round :: OrZero(s.slots.Get(c)) <= tip)
    && (tip == 0 || exists s :: s in log && s.round == round && s.slots.Get(c) == Some(tip))
  }

  ghost predicate AllBest(log: seq<Sample>, round: nat, tips: SlotTips) {
    forall c: Commitment :: IsBest(log, round, c, tips.Get(c))
  }

  ghost predicate CellRefines(log: seq<Sample>, k: nat, cell: Option<Cell>) {
    match cell
    case None => forall s | s in log :: s.round % TIP_ROUNDS != k
    case Some(Cell(round, tips)) =>
      round % TIP_ROUNDS == k && ReportedIn(log, round) && Latest(log, round) && AllBest(log, round, tips)
  }

  lemma BestAfterReport(log: seq<Sample>, s: Sample, c: Commitment, tip: nat)
    requires IsBest(log, s.round, c, tip)
    ensures IsBest(log + [s], s.round, c, Raise(tip, s.slots.Get(c)))
  {
    var log' := log + [s];
    var tip' := Raise(tip, s.slots.Get(c));
    if tip' == OrZero(s.slots.Get(c)) {
      assert log'[|log|] == s;
    } else {
      var best :| best in log && best.round == s.round && best.slots.Get(c) == Some(tip);
      assert best in log';
    }
  }

  lemma NoReportIsZero(log: seq<Sample>, round: nat, c: Commitment)
    requires !ReportedIn(log, round)
    ensures IsBest(log, round, c, 0)
  {
  }

  lemma CellAfterReport(log: seq<Sample>, k: nat, cell: Option<Cell>, s: Sample)
    requires k < TIP_ROUNDS && CellRefines(log, k, cell)
    ensures CellRefines(log + [s], k, if s.round % TIP_ROUNDS == k then ObserveCell(cell, s.round, s.slots) else cell)
  {
    var log' := log + [s];
    assert log'[|log|] == s;
    if s.round % TIP_ROUNDS == k {
      if cell.Some? && cell.value.round > s.round {
        assert AllBest(log', cell.value.round, cell.value.tips);
      } else {
        var tips := if cell.Some? && cell.value.round == s.round then cell.value.tips else NO_TIPS;
        forall c: Commitment
          ensures IsBest(log', s.round, c, Observe(tips, s.slots).Get(c))
        {
          if cell.None? || cell.value.round < s.round {
            NoReportIsZero(log, s.round, c);
          }
          BestAfterReport(log, s, c, tips.Get(c));
        }
        assert AllBest(log', s.round, Observe(tips, s.slots));
      }
    } else if cell.Some? {
      assert AllBest(log', cell.value.round, cell.value.tips);
    }
  }

  lemma {:induction false} ReplayRefines(log: seq<Sample>, k: nat)
    requires k < TIP_ROUNDS
    ensures CellRefines(log, k, Replay(log)[k])
    decreases |log|
  {
    if log != [] {
      var before, s := log[..|log| - 1], log[|log| - 1];
      assert log == before + [s];
      ReplayRefines(before, k);
      CellAfterReport(before, k, Replay(before)[k], s);
    }
  }

  /**
    * The ring refines the log: a round is present exactly when it was reported and no larger
    * round congruent to it mod 4 was, and then it holds the per-commitment maximum of every
    * report ever made for it.
    */
  lemma RingRefinesLog(log: seq<Sample>, round: nat)
    ensures Lookup(Replay(log), round).Some? <==> ReportedIn(log, round) && Latest(log, round)
    ensures Lookup(Replay(log), round).Some? ==> AllBest(log, round, Lookup(Replay(log), round).value)
  {
    ReplayRefines(log, round % TIP_ROUNDS);
    var cell := Replay(log)[round % TIP_ROUNDS];
    if cell.Some? && cell.value.round != round && ReportedIn(log, round) {
      var s :| s in log && s.round == round;
      var t :| t in log && t.round == cell.value.round;
      assert s.round <= cell.value.round;
    }
  }

  lemma SameSamplesSameBest(a: seq<Sample>, b: seq<Sample>, round: nat, c: Commitment, x: nat, y: nat)
    requires forall s :: s in a <==> s in b
    requires IsBest(a, round, c, x) && IsBest(b, round, c, y)
    ensures x == y
  {
  }

  lemma SameSamplesSameTips(a: seq<Sample>, b: seq<Sample>, round: nat, x: SlotTips, y: SlotTips)
    requires forall s :: s in a <==> s in b
    requires AllBest(a, round, x) && AllBest(b, round, y)
    ensures x == y
  {
    forall c: Commitment
      ensures x.Get(c) == y.Get(c)
    {
      SameSamplesSameBest(a, b, round, c, x.Get(c), y.Get(c));
    }
    assert x.Get(Processed) == y.Get(Processed) && x.Get(Confirmed) == y.Get(Confirmed);
    assert x.Get(Finalized) == y.Get(Finalized);
  }

  /** So the content of the ring does not depend on the order, or the repetition, of reports. */
  lemma RingIgnoresOrder(a: seq<Sample>, b: seq<Sample>)
    requires forall s :: s in a <==> s in b
    ensures Replay(a) == Replay(b)
  {
    forall k | 0 <= k < TIP_ROUNDS
      ensures Replay(a)[k] == Replay(b)[k]
    {
      SameCell(a, b, k);
    }
  }

  lemma SameCell(a: seq<Sample>, b: seq<Sample>, k: nat)
    requires k < TIP_ROUNDS
    requires forall s :: s in a <==> s in b
    ensures Replay(a)[k] == Replay(b)[k]
  {
    ReplayRefines(a, k);
    ReplayRefines(b, k);
    var x, y := Replay(a)[k], Replay(b)[k];
    if x.Some? {
      var s :| s in a && s.round == x.value.round;
      assert s in b;
      var t :| t in b && t.round == y.value.round;
      assert t in a;
      assert x.value.round == y.value.round;
      SameSamplesSameTips(a, b, x.value.round, x.value.tips, y.value.tips);
    }
  }
}
