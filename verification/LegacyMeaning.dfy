/**
  * What the decoder of src/tx.rs says of a legacy or v0 transaction, in terms of its bytes alone: the
  * program keys, the tags and offsets of the budget data, and the default compute allotments.
  */
module LegacyMeaning {
  import opened Common
  import opened Wire
  import opened Fees
  import opened Legacy
  import opened LegacyCodec
  import opened ProgramKeys
  import opened Transactions

  // ----- what the bytes say

  ghost predicate CallsBudget(tx: LegacyTransaction, i: int) {
    && 0 <= i < |tx.instructions| && tx.instructions[i].program < |tx.keys|
    && tx.keys[tx.instructions[i].program] == ComputeBudgetKey()
  }

  ghost predicate Tagged(tx: LegacyTransaction, i: int, tag: nat) {
    CallsBudget(tx, i) && tx.instructions[i].data != [] && tx.instructions[i].data[0] == tag
  }

  /** Budget data missing, cut short, or given twice. */
  ghost predicate MalformedBudget(tx: LegacyTransaction) {
    || (exists i :: CallsBudget(tx, i) && tx.instructions[i].data == [])
    || (exists i :: Tagged(tx, i, 2) && |tx.instructions[i].data| < 5)
    || (exists i :: Tagged(tx, i, 3) && |tx.instructions[i].data| < 9)
    || (exists i, j :: i < j && Tagged(tx, i, 2) && Tagged(tx, j, 2))
    || (exists i, j :: i < j && Tagged(tx, i, 3) && Tagged(tx, j, 3))
  }

  ghost function Builtins(tx: LegacyTransaction, n: nat): nat
    requires WellFormed(tx) && n <= |tx.instructions|
  {
    if n == 0 then 0
    else
      assert tx.instructions[n - 1] in tx.instructions;
      Builtins(tx, n - 1) + (if IsBuiltin(tx.keys[tx.instructions[n - 1].program]) then 1 else 0)
  }

  /** Four bytes, the least significant first. */
  ghost function Four(a: nat, b: nat, c: nat, d: nat): nat {
    a + 0x100 * b + 0x1_0000 * c + 0x100_0000 * d
  }

  /** The limit as four little-endian bytes after the tag. */
  ghost function LimitIn(data: Bytes): nat
    requires |data| >= 5
  {
    Four(data[1], data[2], data[3], data[4])
  }

  /** The price as eight little-endian bytes after the tag. */
  ghost function PriceIn(data: Bytes): nat
    requires |data| >= 9
  {
    Four(data[1], data[2], data[3], data[4]) + 0x1_0000_0000 * Four(data[5], data[6], data[7], data[8])
  }

  /** The limit set, or else 3,000 units per builtin instruction and 200,000 per other, up to 1,400,000. */
  ghost predicate SaysLimit(tx: LegacyTransaction, info: TransactionInfo)
    requires WellFormed(tx)
  {
    && (forall i | Tagged(tx, i, 2) && |tx.instructions[i].data| >= 5 ::
          !info.cuLimitDefaulted && info.cuLimit == LimitIn(tx.instructions[i].data))
    && ((forall i :: !Tagged(tx, i, 2)) ==>
          var n, builtins := |tx.instructions|, Builtins(tx, |tx.instructions|);
          var units := 3_000 * builtins + 200_000 * (n - builtins);
          info.cuLimitDefaulted && info.cuLimit == if units <= 1_400_000 then units else 1_400_000)
  }

  ghost predicate SaysPrice(tx: LegacyTransaction, info: TransactionInfo) {
    && (forall i | Tagged(tx, i, 3) && |tx.instructions[i].data| >= 9 ::
          info.cuPrice == Some(PriceIn(tx.instructions[i].data)))
    && ((forall i :: !Tagged(tx, i, 3)) ==> info.cuPrice == None)
  }

  /** Price times limit, up to 1,400,000 units, in millionths of a lamport, rounded up and capped at 2^64 - 1. */
  ghost predicate SaysFee(info: TransactionInfo) {
    match info.cuPrice
    case None => info.priorityFee == None
    case Some(price) =>
      var units := if info.cuLimit <= 1_400_000 then info.cuLimit else 1_400_000;
      && info.priorityFee.Some?
      && var fee := info.priorityFee.value;
      && fee <= 0xFFFF_FFFF_FFFF_FFFF
      && (fee < 0xFFFF_FFFF_FFFF_FFFF ==> units * price <= fee * 1_000_000)
      && (fee > 0 ==> (fee - 1) * 1_000_000 < units * price)
  }

  // ----- from the declared values of the round trip

  lemma {:induction false} DefaultsAppend(keys: seq<Bytes>, inss: seq<Instruction>, ins: Instruction)
    requires forall x | x in inss + [ins] :: x.program < |keys|
    ensures ins in inss + [ins] && forall x | x in inss :: x in inss + [ins]
    ensures Defaults(keys, inss + [ins]) == Defaults(keys, inss) + DefaultUnits(keys[ins.program])
    decreases |inss|
  {
    assert (inss + [ins])[|inss|] == ins;
    if inss == [] {
      assert [] + [ins] == [ins] && [ins][1..] == [];
    } else {
      assert (inss + [ins])[1..] == inss[1..] + [ins] && (inss + [ins])[0] == inss[0];
      assert forall x | x in inss[1..] + [ins] :: x in inss + [ins];
      DefaultsAppend(keys, inss[1..], ins);
    }
  }

  lemma UnitsOfKey(key: Bytes)
    requires |key| == 32
    ensures DefaultUnits(key) == if IsBuiltin(key) then 3_000 else 200_000
  {
    BuiltinMeans(key);
  }

  /** The default units of the first `n` instructions. */
  ghost function DefaultsOf(tx: LegacyTransaction, n: nat): nat
    requires WellFormed(tx) && n <= |tx.instructions|
  {
    assert forall x | x in tx.instructions[..n] :: x in tx.instructions;
    Defaults(tx.keys, tx.instructions[..n])
  }

  lemma DefaultsStep(tx: LegacyTransaction, n: nat)
    requires WellFormed(tx) && n < |tx.instructions|
    ensures tx.instructions[n] in tx.instructions
    ensures DefaultsOf(tx, n + 1) == DefaultsOf(tx, n) + DefaultUnits(tx.keys[tx.instructions[n].program])
  {
    var init, ins := tx.instructions[..n], tx.instructions[n];
    assert tx.instructions[..n + 1] == init + [ins];
    assert forall x | x in init + [ins] :: x in tx.instructions;
    DefaultsAppend(tx.keys, init, ins);
  }

  lemma BuiltinsStep(tx: LegacyTransaction, n: nat)
    requires WellFormed(tx) && n < |tx.instructions|
    ensures tx.instructions[n] in tx.instructions
    ensures Builtins(tx, n + 1)
         == Builtins(tx, n) + (if DefaultUnits(tx.keys[tx.instructions[n].program]) == 3_000 then 1 else 0)
    ensures DefaultUnits(tx.keys[tx.instructions[n].program]) in {3_000, 200_000}
  {
    var ins := tx.instructions[n];
    assert ins in tx.instructions && tx.keys[ins.program] in tx.keys;
    UnitsOfKey(tx.keys[ins.program]);
  }

  ghost predicate DefaultsFit(tx: LegacyTransaction, n: nat)
    requires WellFormed(tx) && n <= |tx.instructions|
  {
    Builtins(tx, n) <= n && DefaultsOf(tx, n) == 3_000 * Builtins(tx, n) + 200_000 * (n - Builtins(tx, n))
  }

  lemma NoDefaults(tx: LegacyTransaction)
    requires WellFormed(tx)
    ensures DefaultsFit(tx, 0)
  {
    assert tx.instructions[..0] == [];
  }

  lemma FitStep(tx: LegacyTransaction, n: nat)
    requires WellFormed(tx) && n < |tx.instructions| && DefaultsFit(tx, n)
    ensures DefaultsFit(tx, n + 1)
  {
    DefaultsStep(tx, n);
    BuiltinsStep(tx, n);
  }

  lemma {:induction false} DefaultsMeans(tx: LegacyTransaction, n: nat)
    requires WellFormed(tx) && n <= |tx.instructions|
    ensures DefaultsFit(tx, n)
  {
    if n == 0 {
      NoDefaults(tx);
    } else {
      var m := n - 1;
      DefaultsMeans(tx, m);
      FitStep(tx, m);
    }
  }

  lemma AllDefaults(tx: LegacyTransaction)
    requires WellFormed(tx)
    ensures var n, builtins := |tx.instructions|, Builtins(tx, |tx.instructions|);
            Defaults(tx.keys, tx.instructions) == 3_000 * builtins + 200_000 * (n - builtins)
  {
    DefaultsMeans(tx, |tx.instructions|);
    assert tx.instructions[..|tx.instructions|] == tx.instructions;
  }

  lemma BudgetCallMeans(tx: LegacyTransaction, i: nat)
    requires WellFormed(tx) && i < |tx.instructions|
    ensures IsBudget(tx.keys, tx.instructions[i]) <==> CallsBudget(tx, i)
  {
    var ins := tx.instructions[i];
    assert ins in tx.instructions && tx.keys[ins.program] in tx.keys;
    BudgetMeans(tx.keys[ins.program]);
  }

  lemma LastBytes(b: Bytes)
    ensures |b| == 1 ==> FromLE(b) == b[0]
  {
    assert |b| == 1 ==> b[1..] == [];
  }

  lemma FourBytes(b: Bytes)
    requires |b| == 4
    ensures FromLE(b) == Four(b[0], b[1], b[2], b[3])
  {
    var b1 := b[1..];
    var b2 := b1[1..];
    var b3 := b2[1..];
    LastBytes(b3);
    assert FromLE(b2) == b2[0] + 256 * FromLE(b3);
    assert FromLE(b1) == b1[0] + 256 * FromLE(b2);
  }

  lemma LimitMeans(data: Bytes)
    requires |data| >= 5
    ensures FromLE(data[1..5]) == LimitIn(data)
  {
    FourBytes(data[1..5]);
  }

  lemma FromLEStep(a: Bytes, b: Bytes)
    requires a != []
    ensures FromLE(a + b) == a[0] + 256 * FromLE(a[1..] + b)
  {
    assert (a + b)[1..] == a[1..] + b;
  }

  lemma FromLESplit(a: Bytes, b: Bytes)
    requires |a| == 4
    ensures FromLE(a + b) == FromLE(a) + 0x1_0000_0000 * FromLE(b)
  {
    var a1 := a[1..];
    var a2 := a1[1..];
    var a3 := a2[1..];
    FromLEStep(a, b);
    FromLEStep(a1, b);
    FromLEStep(a2, b);
    FromLEStep(a3, b);
    assert a3[1..] + b == b;
    FourBytes(a);
  }

  lemma PriceMeans(data: Bytes)
    requires |data| >= 9
    ensures FromLE(data[1..9]) == PriceIn(data)
  {
    assert data[1..9] == data[1..5] + data[5..9];
    FromLESplit(data[1..5], data[5..9]);
    FourBytes(data[1..5]);
    FourBytes(data[5..9]);
  }

  /** A count over the instructions is zero, or more than one, exactly as their positions say. */
  lemma {:induction false} LimitsMeans(keys: seq<Bytes>, inss: seq<Instruction>)
    ensures Limits(keys, inss) == 0 <==> forall i | 0 <= i < |inss| :: !SetsLimit(keys, inss[i])
    ensures Limits(keys, inss) > 1 <==>
      exists i, j :: 0 <= i < j < |inss| && SetsLimit(keys, inss[i]) && SetsLimit(keys, inss[j])
    decreases |inss|
  {
    if inss != [] {
      var rest := inss[1..];
      LimitsMeans(keys, rest);
      assert forall i | 1 <= i < |inss| :: inss[i] == rest[i - 1];
      if i, j :| 0 <= i < j < |rest| && SetsLimit(keys, rest[i]) && SetsLimit(keys, rest[j]) {
        assert SetsLimit(keys, inss[i + 1]) && SetsLimit(keys, inss[j + 1]);
      }
      if Limits(keys, rest) > 0 {
        var j :| 0 <= j < |rest| && SetsLimit(keys, rest[j]);
        assert SetsLimit(keys, inss[j + 1]);
      }
    }
  }

  lemma {:induction false} PricesMeans(keys: seq<Bytes>, inss: seq<Instruction>)
    ensures Prices(keys, inss) == 0 <==> forall i | 0 <= i < |inss| :: !SetsPrice(keys, inss[i])
    ensures Prices(keys, inss) > 1 <==>
      exists i, j :: 0 <= i < j < |inss| && SetsPrice(keys, inss[i]) && SetsPrice(keys, inss[j])
    decreases |inss|
  {
    if inss != [] {
      var rest := inss[1..];
      PricesMeans(keys, rest);
      assert forall i | 1 <= i < |inss| :: inss[i] == rest[i - 1];
      if i, j :| 0 <= i < j < |rest| && SetsPrice(keys, rest[i]) && SetsPrice(keys, rest[j]) {
        assert SetsPrice(keys, inss[i + 1]) && SetsPrice(keys, inss[j + 1]);
      }
      if Prices(keys, rest) > 0 {
        var j :| 0 <= j < |rest| && SetsPrice(keys, rest[j]);
        assert SetsPrice(keys, inss[j + 1]);
      }
    }
  }

  lemma TagsMean(tx: LegacyTransaction)
    requires WellFormed(tx)
    ensures forall i | 0 <= i < |tx.instructions| ::
      && (IsBudget(tx.keys, tx.instructions[i]) <==> CallsBudget(tx, i))
      && (SetsLimit(tx.keys, tx.instructions[i]) <==> Tagged(tx, i, 2))
      && (SetsPrice(tx.keys, tx.instructions[i]) <==> Tagged(tx, i, 3))
  {
    forall i | 0 <= i < |tx.instructions|
      ensures IsBudget(tx.keys, tx.instructions[i]) <==> CallsBudget(tx, i)
    {
      BudgetCallMeans(tx, i);
    }
  }

  lemma MalformedMeans(tx: LegacyTransaction)
    requires WellFormed(tx)
    ensures (exists ins | ins in tx.instructions :: Malformed(tx.keys, ins)) <==>
      || (exists i :: CallsBudget(tx, i) && tx.instructions[i].data == [])
      || (exists i :: Tagged(tx, i, 2) && |tx.instructions[i].data| < 5)
      || (exists i :: Tagged(tx, i, 3) && |tx.instructions[i].data| < 9)
  {
    TagsMean(tx);
    if ins :| ins in tx.instructions && Malformed(tx.keys, ins) {
      var i :| 0 <= i < |tx.instructions| && tx.instructions[i] == ins;
      assert CallsBudget(tx, i);
      assert ins.data != [] && ins.data[0] == 2 ==> Tagged(tx, i, 2);
      assert ins.data != [] && ins.data[0] == 3 ==> Tagged(tx, i, 3);
    }
    forall i | CallsBudget(tx, i)
      ensures tx.instructions[i] in tx.instructions
    {
    }
  }

  lemma RepeatedLimitMeans(tx: LegacyTransaction)
    requires WellFormed(tx)
    ensures Limits(tx.keys, tx.instructions) > 1 <==> exists i, j :: i < j && Tagged(tx, i, 2) && Tagged(tx, j, 2)
    ensures Limits(tx.keys, tx.instructions) == 0 <==> forall i :: !Tagged(tx, i, 2)
  {
    TagsMean(tx);
    LimitsMeans(tx.keys, tx.instructions);
  }

  lemma RepeatedPriceMeans(tx: LegacyTransaction)
    requires WellFormed(tx)
    ensures Prices(tx.keys, tx.instructions) > 1 <==> exists i, j :: i < j && Tagged(tx, i, 3) && Tagged(tx, j, 3)
    ensures Prices(tx.keys, tx.instructions) == 0 <==> forall i :: !Tagged(tx, i, 3)
  {
    TagsMean(tx);
    PricesMeans(tx.keys, tx.instructions);
  }

  lemma BadBudgetMeans(tx: LegacyTransaction)
    requires WellFormed(tx)
    ensures BadBudget(tx) <==> MalformedBudget(tx)
  {
    MalformedMeans(tx);
    RepeatedLimitMeans(tx);
    RepeatedPriceMeans(tx);
  }

  lemma SaysLimitAt(tx: LegacyTransaction, info: TransactionInfo, i: nat)
    requires WellFormed(tx) && DeclaresLimit(tx, info) && Tagged(tx, i, 2) && |tx.instructions[i].data| >= 5
    ensures !info.cuLimitDefaulted && info.cuLimit == LimitIn(tx.instructions[i].data)
  {
    BudgetCallMeans(tx, i);
    assert tx.instructions[i] in tx.instructions && SetsLimit(tx.keys, tx.instructions[i]);
    LimitMeans(tx.instructions[i].data);
  }

  lemma SaysDeclaredLimit(tx: LegacyTransaction, info: TransactionInfo)
    requires WellFormed(tx) && DeclaresLimit(tx, info)
    ensures SaysLimit(tx, info)
  {
    forall i | Tagged(tx, i, 2) && |tx.instructions[i].data| >= 5
      ensures !info.cuLimitDefaulted && info.cuLimit == LimitIn(tx.instructions[i].data)
    {
      SaysLimitAt(tx, info, i);
    }
    RepeatedLimitMeans(tx);
    AllDefaults(tx);
  }

  lemma SaysPriceAt(tx: LegacyTransaction, info: TransactionInfo, i: nat)
    requires WellFormed(tx) && DeclaresPrice(tx, info) && Tagged(tx, i, 3) && |tx.instructions[i].data| >= 9
    ensures info.cuPrice == Some(PriceIn(tx.instructions[i].data))
  {
    BudgetCallMeans(tx, i);
    assert tx.instructions[i] in tx.instructions && SetsPrice(tx.keys, tx.instructions[i]);
    PriceMeans(tx.instructions[i].data);
  }

  lemma SaysDeclaredPrice(tx: LegacyTransaction, info: TransactionInfo)
    requires WellFormed(tx) && DeclaresPrice(tx, info)
    ensures SaysPrice(tx, info)
  {
    forall i | Tagged(tx, i, 3) && |tx.instructions[i].data| >= 9
      ensures info.cuPrice == Some(PriceIn(tx.instructions[i].data))
    {
      SaysPriceAt(tx, info, i);
    }
    RepeatedPriceMeans(tx);
  }

  lemma SaysDeclaredFee(info: TransactionInfo)
    requires DeclaresFee(info)
    ensures SaysFee(info)
  {
    if info.cuPrice.Some? {
      var c := CeilingExists(info.cuLimit, info.cuPrice.value);
      assert info.priorityFee.value == Min(c, U64_MAX);
      CappedCeiling(c, EffectiveLimit(info.cuLimit) * info.cuPrice.value, info.priorityFee.value);
    }
  }

  lemma CappedCeiling(c: nat, product: nat, fee: nat)
    requires IsCeiling(c, product, MICRO) && fee == Min(c, U64_MAX)
    ensures fee <= 0xFFFF_FFFF_FFFF_FFFF
    ensures fee < 0xFFFF_FFFF_FFFF_FFFF ==> product <= fee * 1_000_000
    ensures fee > 0 ==> (fee - 1) * 1_000_000 < product
  {
  }

  /**
    * Every legacy or v0 transaction of at most 1232 bytes decodes to what its bytes say: limit, price,
    * fee, counts and version, or InvalidBudget exactly for budget data missing, short or repeated.
    */
  lemma LegacyDecodesAsItSays(tx: LegacyTransaction)
    requires WellFormed(tx) && |Encode(tx)| <= 1232
    ensures match DecodedPayload(Encode(tx))
            case Ok(info) =>
              && !MalformedBudget(tx)
              && SaysLimit(tx, info) && SaysPrice(tx, info) && SaysFee(info)
              && info.numInstructions == |tx.instructions| && info.numSignatures == |tx.signatures|
              && info.isVersioned == tx.versioned
            case Err(e) => e == InvalidBudget && MalformedBudget(tx)
  {
    LegacyPayloadRoundTrip(tx);
    BadBudgetMeans(tx);
    var verdict := DecodedPayload(Encode(tx));
    if verdict.Ok? {
      SaysDeclaredLimit(tx, verdict.value);
      SaysDeclaredPrice(tx, verdict.value);
      SaysDeclaredFee(verdict.value);
    }
  }
}
