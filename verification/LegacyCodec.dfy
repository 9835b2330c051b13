/**
  * The legacy/v0 wire format written as an encoder, and the proof that the decoder of
  * module `Legacy` inverts it: it reports exactly what the transaction declares.
  */
module LegacyCodec {
  import opened Common
  import opened Wire
  import opened Fees
  import opened Legacy

  datatype LegacyTransaction = LegacyTransaction(
    signatures: seq<Bytes>,
    versioned: bool,
    header: Bytes,
    keys: seq<Bytes>,
    blockhash: Bytes,
    instructions: seq<Instruction>,
    lookups: Bytes)  // the address-table lookups of a v0 message, which the decoder does not read

  predicate Encodable(ins: Instruction) {
    |ins.accounts| < 65536 && |ins.data| < 65536
  }

  ghost predicate AllWellFormed(inss: seq<Instruction>, keyCount: nat) {
    forall ins | ins in inss :: Encodable(ins) && ins.program < keyCount
  }

  ghost predicate WellFormed(tx: LegacyTransaction) {
    && |tx.signatures| < 65536 && AllOfWidth(tx.signatures, 64)
    && |tx.header| == 3 && (!tx.versioned ==> tx.header[0] < 128)
    && |tx.keys| < 65536 && AllOfWidth(tx.keys, 32)
    && |tx.blockhash| == 32
    && |tx.instructions| < 65536
    && AllWellFormed(tx.instructions, |tx.keys|)
  }

  // ----- encoding

  function EncodeInstruction(ins: Instruction): Bytes
    requires Encodable(ins)
  {
    [ins.program]
    + (EncodeShortvec(|ins.accounts|) + (ins.accounts + (EncodeShortvec(|ins.data|) + ins.data)))
  }

  function EncodeInstructions(inss: seq<Instruction>): Bytes
    requires forall ins | ins in inss :: Encodable(ins)
  {
    if inss == [] then [] else EncodeInstruction(inss[0]) + EncodeInstructions(inss[1..])
  }

  ghost function EncodeBody(tx: LegacyTransaction): Bytes
    requires WellFormed(tx)
  {
    EncodeShortvec(|tx.keys|) + (Flatten(tx.keys) + (tx.blockhash
    + (EncodeShortvec(|tx.instructions|) + (EncodeInstructions(tx.instructions) + tx.lookups))))
  }

  ghost function Encode(tx: LegacyTransaction): Bytes
    requires WellFormed(tx)
  {
    EncodeShortvec(|tx.signatures|) + (Flatten(tx.signatures)
    + ((if tx.versioned then [128] else []) + (tx.header + EncodeBody(tx))))
  }

  // ----- what a transaction declares

  ghost predicate IsBudget(keys: seq<Bytes>, ins: Instruction) {
    ins.program < |keys| && ProgramId(keys[ins.program]) == COMPUTE_BUDGET_ID
  }

  ghost predicate SetsLimit(keys: seq<Bytes>, ins: Instruction) {
    IsBudget(keys, ins) && ins.data != [] && ins.data[0] == 2
  }

  ghost predicate SetsPrice(keys: seq<Bytes>, ins: Instruction) {
    IsBudget(keys, ins) && ins.data != [] && ins.data[0] == 3
  }

  /** Budget data that is missing, or too short for the value its tag announces. */
  ghost predicate Malformed(keys: seq<Bytes>, ins: Instruction) {
    && IsBudget(keys, ins)
    && (|| ins.data == []
        || (ins.data[0] == 2 && |ins.data| < 5)
        || (ins.data[0] == 3 && |ins.data| < 9))
  }

  ghost function Limits(keys: seq<Bytes>, inss: seq<Instruction>): nat {
    if inss == [] then 0 else (if SetsLimit(keys, inss[0]) then 1 else 0) + Limits(keys, inss[1..])
  }

  ghost function Prices(keys: seq<Bytes>, inss: seq<Instruction>): nat {
    if inss == [] then 0 else (if SetsPrice(keys, inss[0]) then 1 else 0) + Prices(keys, inss[1..])
  }

  ghost function Defaults(keys: seq<Bytes>, inss: seq<Instruction>): nat
    requires forall ins | ins in inss :: ins.program < |keys|
  {
    if inss == [] then 0 else DefaultUnits(keys[inss[0].program]) + Defaults(keys, inss[1..])
  }

  ghost predicate BadBudget(tx: LegacyTransaction) {
    || (exists ins | ins in tx.instructions :: Malformed(tx.keys, ins))
    || Limits(tx.keys, tx.instructions) > 1
    || Prices(tx.keys, tx.instructions) > 1
  }

  ghost predicate DeclaresLimit(tx: LegacyTransaction, info: TransactionInfo)
    requires WellFormed(tx)
  {
    && (forall ins | ins in tx.instructions && SetsLimit(tx.keys, ins) && |ins.data| >= 5 ::
          !info.cuLimitDefaulted && info.cuLimit == FromLE(ins.data[1..5]))
    && (Limits(tx.keys, tx.instructions) == 0 ==>
          info.cuLimitDefaulted && info.cuLimit == Min(Defaults(tx.keys, tx.instructions), MAX_COMPUTE_UNITS))
  }

  ghost predicate DeclaresPrice(tx: LegacyTransaction, info: TransactionInfo) {
    && (forall ins | ins in tx.instructions && SetsPrice(tx.keys, ins) && |ins.data| >= 9 ::
          info.cuPrice == Some(FromLE(ins.data[1..9])))
    && (Prices(tx.keys, tx.instructions) == 0 ==> info.cuPrice == None)
  }

  /** The fee is the price times the capped limit, rounded up to lamports and capped at 2^64 - 1. */
  ghost predicate DeclaresFee(info: TransactionInfo) {
    match info.cuPrice
    case None => info.priorityFee == None
    case Some(price) =>
      && info.priorityFee.Some?
      && (forall c: nat | IsCeiling(c, EffectiveLimit(info.cuLimit) * price, MICRO) ::
            info.priorityFee.value == Min(c, U64_MAX))
  }

  ghost predicate Declares(tx: LegacyTransaction, info: TransactionInfo)
    requires WellFormed(tx)
  {
    && info.numInstructions == |tx.instructions|
    && info.numSignatures == |tx.signatures|
    && info.isVersioned == tx.versioned
    && DeclaresLimit(tx, info)
    && DeclaresPrice(tx, info)
    && DeclaresFee(info)
  }

  // ----- the budget fold

  ghost function ChargeAll(b: Budget, keys: seq<Bytes>, inss: seq<Instruction>): Result<Budget, DecodeError>
    requires forall ins | ins in inss :: ins.program < |keys|
    decreases |inss|
  {
    if inss == [] then Ok(b) else
    var b' :- Charge(b, keys[inss[0].program], inss[0].data);
    ChargeAll(b', keys, inss[1..])
  }

  /** Folding over the instructions fails exactly on malformed or repeated budget data. */
  lemma {:induction false} ChargeAllFails(b: Budget, keys: seq<Bytes>, inss: seq<Instruction>)
    requires forall ins | ins in inss :: ins.program < |keys|
    ensures ChargeAll(b, keys, inss).Err? <==>
      || (exists ins | ins in inss :: Malformed(keys, ins))
      || Limits(keys, inss) + (if b.limit.Some? then 1 else 0) > 1
      || Prices(keys, inss) + (if b.price.Some? then 1 else 0) > 1
    ensures ChargeAll(b, keys, inss).Err? ==> ChargeAll(b, keys, inss).error == InvalidBudget
    decreases |inss|
  {
    if inss != [] {
      var head := inss[0];
      assert head in inss;
      assert forall ins :: ins in inss <==> ins == head || ins in inss[1..];
      var charged := Charge(b, keys[head.program], head.data);
      if charged.Ok? {
        ChargeAllFails(charged.value, keys, inss[1..]);
      } else {
        assert Malformed(keys, head) || SetsLimit(keys, head) || SetsPrice(keys, head);
      }
    }
  }

  /** When it succeeds it holds the declared values, and the default is the plain sum. */
  lemma {:induction false} ChargeAllCollects(b: Budget, keys: seq<Bytes>, inss: seq<Instruction>)
    requires forall ins | ins in inss :: ins.program < |keys|
    requires b.defaultLimit + INSTRUCTION_UNITS * |inss| <= U64_MAX
    requires ChargeAll(b, keys, inss).Ok?
    ensures var b' := ChargeAll(b, keys, inss).value;
      && (forall ins | ins in inss && SetsLimit(keys, ins) && |ins.data| >= 5 ::
            b'.limit == Some(FromLE(ins.data[1..5])))
      && (forall ins | ins in inss && SetsPrice(keys, ins) && |ins.data| >= 9 ::
            b'.price == Some(FromLE(ins.data[1..9])))
      && (Limits(keys, inss) == 0 ==> b'.limit == b.limit)
      && (Prices(keys, inss) == 0 ==> b'.price == b.price)
      && b'.defaultLimit == b.defaultLimit + Defaults(keys, inss)
    decreases |inss|
  {
    if inss != [] {
      var head := inss[0];
      assert head in inss;
      assert forall ins :: ins in inss <==> ins == head || ins in inss[1..];
      var charged := Charge(b, keys[head.program], head.data).value;
      ChargeAllCollects(charged, keys, inss[1..]);
      ChargeAllFails(charged, keys, inss[1..]);
      assert charged.limit.Some? ==> Limits(keys, inss[1..]) == 0;
      assert charged.price.Some? ==> Prices(keys, inss[1..]) == 0;
    }
  }

  /** Values a fold collects fit the widths they are read from. */
  lemma {:induction false} ChargeAllBounded(b: Budget, keys: seq<Bytes>, inss: seq<Instruction>)
    requires forall ins | ins in inss :: ins.program < |keys|
    requires b.price.Some? ==> b.price.value <= U64_MAX
    requires ChargeAll(b, keys, inss).Ok?
    ensures var p := ChargeAll(b, keys, inss).value.price; p.Some? ==> p.value <= U64_MAX
    decreases |inss|
  {
    if inss != [] {
      Widths();
      ChargeAllBounded(Charge(b, keys[inss[0].program], inss[0].data).value, keys, inss[1..]);
    }
  }

  // ----- parsing what was encoded

  lemma InstructionRoundTrip(ins: Instruction, keyCount: nat, rest: Bytes)
    requires Encodable(ins) && ins.program < keyCount
    ensures ParseInstruction(EncodeInstruction(ins) + rest, keyCount) == Ok((ins, rest))
  {
    var tail4 := ins.data + rest;
    var tail3 := EncodeShortvec(|ins.data|) + tail4;
    var tail2 := ins.accounts + tail3;
    var tail1 := EncodeShortvec(|ins.accounts|) + tail2;
    assert EncodeInstruction(ins) + rest == [ins.program] + tail1;
    assert ([ins.program] + tail1)[1..] == tail1;
    ShortvecRoundTrip(|ins.accounts|, tail2);
    TakePrefix(ins.accounts, tail3);
    ShortvecRoundTrip(|ins.data|, tail4);
    TakePrefix(ins.data, rest);
  }

  /** A charged budget in front of the bytes still to be read. */
  ghost function Before(charged: Result<Budget, DecodeError>, rest: Bytes): Parsed<Budget> {
    match charged
    case Ok(b) => Ok((b, rest))
    case Err(e) => Err(e)
  }

  lemma ChargeRoundTrip(b: Budget, keys: seq<Bytes>, ins: Instruction, rest: Bytes)
    requires AllOfWidth(keys, 32)
    requires Encodable(ins) && ins.program < |keys|
    requires |Flatten(keys)| == 32 * |keys|
    ensures ParseCharge(EncodeInstruction(ins) + rest, Flatten(keys), |keys|, b)
         == Before(Charge(b, keys[ins.program], ins.data), rest)
  {
    InstructionRoundTrip(ins, |keys|, rest);
    FlattenSlice(keys, ins.program);
    assert KeyAt(Flatten(keys), ins.program) == keys[ins.program];
  }

  lemma EncodeInstructionsCons(inss: seq<Instruction>, rest: Bytes)
    requires inss != [] && forall ins | ins in inss :: Encodable(ins)
    ensures EncodeInstructions(inss) + rest
         == EncodeInstruction(inss[0]) + (EncodeInstructions(inss[1..]) + rest)
  {
    var head, tail := EncodeInstruction(inss[0]), EncodeInstructions(inss[1..]);
    assert (head + tail) + rest == head + (tail + rest);
  }

  lemma InstructionsStep(
      s: Bytes, n: nat, keys: Bytes, keyCount: nat, b: Budget, charged: Result<Budget, DecodeError>, rest: Bytes)
    requires n > 0 && |keys| == 32 * keyCount
    requires ParseCharge(s, keys, keyCount, b) == Before(charged, rest)
    ensures ParseInstructions(s, n, keys, keyCount, b)
         == if charged.Ok? then ParseInstructions(rest, n - 1, keys, keyCount, charged.value) else Err(charged.error)
  {
  }

  lemma {:induction false} InstructionsRoundTrip(b: Budget, keys: seq<Bytes>, inss: seq<Instruction>, rest: Bytes)
    requires AllOfWidth(keys, 32)
    requires AllWellFormed(inss, |keys|)
    requires |Flatten(keys)| == 32 * |keys|
    ensures ParseInstructions(EncodeInstructions(inss) + rest, |inss|, Flatten(keys), |keys|, b)
         == Before(ChargeAll(b, keys, inss), rest)
    decreases |inss|
  {
    if inss == [] {
      assert EncodeInstructions(inss) + rest == rest;
    } else {
      var tail := EncodeInstructions(inss[1..]) + rest;
      EncodeInstructionsCons(inss, rest);
      ChargeRoundTrip(b, keys, inss[0], tail);
      var charged := Charge(b, keys[inss[0].program], inss[0].data);
      InstructionsStep(EncodeInstructions(inss) + rest, |inss|, Flatten(keys), |keys|, b, charged, tail);
      if charged.Ok? {
        InstructionsRoundTrip(charged.value, keys, inss[1..], rest);
      }
    }
  }

  /** The body parser, one field at a time. */
  lemma BodySteps(
      s: Bytes, keyCount: nat, s1: Bytes, keys: Bytes, s2: Bytes, hash: Bytes, s3: Bytes, count: nat, s4: Bytes,
      signatures: nat, versioned: bool)
    requires Shortvec(s) == Ok((keyCount, s1))
    requires TakeBytes(s1, 32 * keyCount) == Ok((keys, s2))
    requires TakeBytes(s2, 32) == Ok((hash, s3))
    requires Shortvec(s3) == Ok((count, s4))
    ensures |keys| == 32 * keyCount
    ensures match ParseInstructions(s4, count, keys, keyCount, NO_BUDGET)
            case Ok((b, s5)) => ParseBody(s, signatures, versioned) == Ok((Scan(b, count, signatures, versioned), s5))
            case Err(e) => ParseBody(s, signatures, versioned) == Err(e)
  {
  }

  lemma BodyRoundTrip(tx: LegacyTransaction, signatures: nat, versioned: bool)
    requires WellFormed(tx)
    ensures match ChargeAll(NO_BUDGET, tx.keys, tx.instructions)
            case Ok(b) => ParseBody(EncodeBody(tx), signatures, versioned)
                          == Ok((Scan(b, |tx.instructions|, signatures, versioned), tx.lookups))
            case Err(e) => ParseBody(EncodeBody(tx), signatures, versioned) == Err(e)
  {
    var keys := Flatten(tx.keys);
    var s4 := EncodeInstructions(tx.instructions) + tx.lookups;
    var s3 := EncodeShortvec(|tx.instructions|) + s4;
    var s2 := tx.blockhash + s3;
    var s1 := keys + s2;
    FlattenLength(tx.keys, 32);
    ShortvecRoundTrip(|tx.keys|, s1);
    TakePrefix(keys, s2);
    TakePrefix(tx.blockhash, s3);
    ShortvecRoundTrip(|tx.instructions|, s4);
    BodySteps(EncodeBody(tx), |tx.keys|, s1, keys, s2, tx.blockhash, s3, |tx.instructions|, s4, signatures, versioned);
    InstructionsRoundTrip(NO_BUDGET, tx.keys, tx.instructions, tx.lookups);
  }

  lemma MessageRoundTrip(versioned: bool, header: Bytes, body: Bytes, signatures: nat)
    requires |header| == 3 && (!versioned ==> header[0] < 128)
    ensures ParseMessage((if versioned then [128] else []) + (header + body), signatures)
         == ParseBody(body, signatures, versioned)
  {
    var message := (if versioned then [128] else []) + (header + body);
    if versioned {
      assert message[1..] == header + body;
      TakePrefix(header, body);
    } else {
      assert message[1..] == header[1..] + body;
      TakePrefix(header[1..], body);
    }
  }

  /** The outermost layer: signatures, then the message. */
  lemma SignaturesRoundTrip(signatures: seq<Bytes>, message: Bytes)
    requires |signatures| < 65536 && AllOfWidth(signatures, 64)
    ensures ParseLegacy(EncodeShortvec(|signatures|) + (Flatten(signatures) + message))
         == ParseMessage(message, |signatures|)
  {
    FlattenLength(signatures, 64);
    ShortvecRoundTrip(|signatures|, Flatten(signatures) + message);
    TakePrefix(Flatten(signatures), message);
  }

  lemma ParseEncoded(tx: LegacyTransaction)
    requires WellFormed(tx)
    ensures ParseLegacy(Encode(tx)) == ParseBody(EncodeBody(tx), |tx.signatures|, tx.versioned)
  {
    var body := EncodeBody(tx);
    SignaturesRoundTrip(tx.signatures, (if tx.versioned then [128] else []) + (tx.header + body));
    MessageRoundTrip(tx.versioned, tx.header, body, |tx.signatures|);
  }

  lemma SummaryDeclares(tx: LegacyTransaction)
    requires WellFormed(tx)
    requires ChargeAll(NO_BUDGET, tx.keys, tx.instructions).Ok?
    ensures var b := ChargeAll(NO_BUDGET, tx.keys, tx.instructions).value;
            Declares(tx, Summarise(Scan(b, |tx.instructions|, |tx.signatures|, tx.versioned)))
  {
    ChargeAllCollects(NO_BUDGET, tx.keys, tx.instructions);
    ChargeAllBounded(NO_BUDGET, tx.keys, tx.instructions);
    var b := ChargeAll(NO_BUDGET, tx.keys, tx.instructions).value;
    var info := Summarise(Scan(b, |tx.instructions|, |tx.signatures|, tx.versioned));
    if b.price.Some? {
      forall c: nat | IsCeiling(c, EffectiveLimit(info.cuLimit) * b.price.value, MICRO)
        ensures info.priorityFee.value == Min(c, U64_MAX)
      {
        PriorityFeeIsCeiling(info.cuLimit, b.price.value, c);
      }
    }
  }

  /**
    * Decoding inverts encoding: the decoder reports exactly the declared limit, price, fee,
    * counts and version, or InvalidBudget exactly for missing, short or duplicate budget data.
    */
  lemma LegacyRoundTrip(tx: LegacyTransaction)
    requires WellFormed(tx)
    ensures match ParseLegacy(Encode(tx))
            case Ok((scan, rest)) => !BadBudget(tx) && Declares(tx, Summarise(scan)) && rest == tx.lookups
            case Err(e) => e == InvalidBudget && BadBudget(tx)
  {
    ParseEncoded(tx);
    BodyRoundTrip(tx, |tx.signatures|, tx.versioned);
    ChargeAllFails(NO_BUDGET, tx.keys, tx.instructions);
    if ChargeAll(NO_BUDGET, tx.keys, tx.instructions).Ok? {
      SummaryDeclares(tx);
    }
  }

  /** Within one packet, the signature count keeps the top bit of the first byte clear. */
  lemma PacketFirstByte(tx: LegacyTransaction)
    requires WellFormed(tx)
    requires |Encode(tx)| <= 1232
    ensures Encode(tx) != [] && Encode(tx)[0] < 128
  {
    FlattenLength(tx.signatures, 64);
  }

  lemma AppendInside(a: Bytes, b: Bytes, c: Bytes, d: Bytes, e: Bytes, t: Bytes)
    ensures a + (b + (c + (d + (e + t)))) == (a + (b + (c + (d + e)))) + t
  {
  }

  /** The lookups are the last thing in the encoding. */
  lemma LookupsLast(tx: LegacyTransaction)
    requires WellFormed(tx)
    ensures WellFormed(tx.(lookups := []))
    ensures Encode(tx) == Encode(tx.(lookups := [])) + tx.lookups
  {
    var bare := tx.(lookups := []);
    var inss := EncodeInstructions(tx.instructions);
    assert inss + [] == inss;
    AppendInside(EncodeShortvec(|tx.keys|), Flatten(tx.keys), tx.blockhash,
                 EncodeShortvec(|tx.instructions|), inss, tx.lookups);
    assert EncodeBody(tx) == EncodeBody(bare) + tx.lookups;
    AppendInside([], EncodeShortvec(|tx.signatures|), Flatten(tx.signatures),
                 (if tx.versioned then [128] else []) + tx.header, EncodeBody(bare), tx.lookups);
    EncodeAsAppend(tx);
    EncodeAsAppend(bare);
  }

  lemma EncodeAsAppend(tx: LegacyTransaction)
    requires WellFormed(tx)
    ensures Encode(tx) == [] + (EncodeShortvec(|tx.signatures|) + (Flatten(tx.signatures)
                          + (((if tx.versioned then [128] else []) + tx.header) + EncodeBody(tx))))
  {
    var mark: Bytes := if tx.versioned then [128] else [];
    assert mark + (tx.header + EncodeBody(tx)) == (mark + tx.header) + EncodeBody(tx);
  }
}
