/**
  * What the decoder of src/tx.rs says of a v1 transaction, in terms of its config words alone.
  */
module V1Meaning {
  import opened Common
  import opened Wire
  import opened Fees
  import opened Legacy
  import opened V1Codec
  import opened Transactions

  /** The fee per compute unit, up to 1,400,000 of them, in millionths of a lamport, rounded down. */
  ghost predicate SaysPrice(price: nat, fee: nat, limit: nat) {
    var units := if limit <= 1_400_000 then limit else 1_400_000;
    if units == 0 then price == 0
    else
      && price <= 0xFFFF_FFFF_FFFF_FFFF && price * units <= fee * 1_000_000
      && (price < 0xFFFF_FFFF_FFFF_FFFF ==> fee * 1_000_000 < (price + 1) * units)
  }

  /** Words 0 and 1 are the low and high half of the fee, word 2 is the limit; without them, none and 0. */
  ghost predicate Says(tx: V1Transaction, info: TransactionInfo)
    requires Shaped(tx)
  {
    && info.cuLimitDefaulted == tx.config[2].None?
    && info.cuLimit == (if tx.config[2].Some? then tx.config[2].value else 0)
    && (if tx.config[0].Some? && tx.config[1].Some? then
          && info.priorityFee == Some(tx.config[0].value + 0x1_0000_0000 * tx.config[1].value)
          && info.cuPrice.Some? && SaysPrice(info.cuPrice.value, info.priorityFee.value, info.cuLimit)
        else info.priorityFee == None && info.cuPrice == None)
    && info.numInstructions == |tx.instructions| && info.numSignatures == |tx.signatures| && info.isVersioned
  }

  lemma PriceSays(price: nat, fee: nat, limit: nat)
    requires IsPrice(price, fee, EffectiveLimit(limit))
    ensures SaysPrice(price, fee, limit)
  {
  }

  lemma DeclaredSays(tx: V1Transaction, info: TransactionInfo)
    requires WellFormed(tx) && !BadBudget(tx) && Declares(tx, info)
    ensures Says(tx, info)
  {
    if info.cuPrice.Some? {
      PriceSays(info.cuPrice.value, info.priorityFee.value, info.cuLimit);
    }
  }

  lemma PrefixOfV1(tx: V1Transaction)
    requires Shaped(tx)
    ensures EncodeV1(tx) != [] && EncodeV1(tx)[0] == 0x81
  {
  }

  lemma UnknownProgramPayload(tx: V1Transaction)
    requires Shaped(tx) && |EncodeV1(tx)| <= 4096 && NamesNoProgram(tx.instructions, |tx.addresses|)
    ensures DecodedPayload(EncodeV1(tx)) == Err(if BadBudget(tx) then InvalidBudget else Unparsed)
  {
    PrefixOfV1(tx);
    UnknownProgramRejected(tx);
  }

  /** The verdict on `tx`: what its words say, or the one error that applies. */
  ghost predicate Fits(tx: V1Transaction, verdict: Verdict)
    requires Shaped(tx)
  {
    if tx.config[0].Some? != tx.config[1].Some? then verdict == Err(InvalidBudget)
    else if NamesNoProgram(tx.instructions, |tx.addresses|) then verdict == Err(Unparsed)
    else verdict.Ok? && Says(tx, verdict.value)
  }

  lemma AllNamed(tx: V1Transaction)
    requires Shaped(tx) && !NamesNoProgram(tx.instructions, |tx.addresses|)
    ensures WellFormed(tx)
  {
  }

  /**
    * Every v1 transaction of at most 4096 bytes starts with 0x81 and decodes to what its words say;
    * half a fee is InvalidBudget, and an instruction without a program is Unparsed.
    */
  lemma V1DecodesAsItSays(tx: V1Transaction)
    requires Shaped(tx) && |EncodeV1(tx)| <= 4096
    ensures EncodeV1(tx) != [] && EncodeV1(tx)[0] == 0x81
    ensures Fits(tx, DecodedPayload(EncodeV1(tx)))
  {
    PrefixOfV1(tx);
    if NamesNoProgram(tx.instructions, |tx.addresses|) {
      UnknownProgramPayload(tx);
    } else {
      AllNamed(tx);
      var verdict := DecodedPayload(EncodeV1(tx));
      V1PayloadRoundTrip(tx);
      if verdict.Ok? {
        DeclaredSays(tx, verdict.value);
      }
    }
  }
}
