/**
  * The v1 wire format written as an encoder, and the proof that the decoder of module `V1`
  * inverts it.
  */
module V1Codec {
  import opened Common
  import opened Wire
  import opened Fees
  import opened Legacy
  import opened V1

  datatype V1Transaction = V1Transaction(
    readonly: Bytes,                // the readonly signed and unsigned counts
    config: seq<Option<nat>>,       // one slot per mask bit
    lifetime: Bytes,
    addresses: seq<Bytes>,
    instructions: seq<Instruction>,
    signatures: seq<Bytes>)

  predicate Encodable(ins: Instruction) {
    |ins.accounts| < 256 && |ins.data| < 65536
  }

  ghost predicate AllWellFormed(inss: seq<Instruction>, addresses: nat) {
    forall ins | ins in inss :: Encodable(ins) && ins.program < addresses
  }

  ghost predicate WordsFit(config: seq<Option<nat>>) {
    forall word | word in config && word.Some? :: word.value < 0x1_0000_0000
  }

  /** The fields have the widths the format gives them. */
  ghost predicate Shaped(tx: V1Transaction) {
    && |tx.readonly| == 2 && |tx.lifetime| == 32
    && |tx.config| == 32 && WordsFit(tx.config)
    && |tx.addresses| < 256 && AllOfWidth(tx.addresses, 32)
    && |tx.instructions| < 256 && (forall ins | ins in tx.instructions :: Encodable(ins))
    && |tx.signatures| < 256 && AllOfWidth(tx.signatures, 64)
  }

  /** And every instruction names a program among the addresses. */
  ghost predicate WellFormed(tx: V1Transaction) {
    Shaped(tx) && AllWellFormed(tx.instructions, |tx.addresses|)
  }

  // ----- encoding

  /** Bit `i` is set exactly when slot `i` holds a word. */
  function MaskOf(config: seq<Option<nat>>): nat {
    if config == [] then 0 else (if config[0].Some? then 1 else 0) + 2 * MaskOf(config[1..])
  }

  function EncodeConfig(config: seq<Option<nat>>): Bytes {
    if config == [] then []
    else (if config[0].Some? then ToLE(config[0].value, 4) else []) + EncodeConfig(config[1..])
  }

  function EncodeHeader(ins: Instruction): Bytes
    requires Encodable(ins)
  {
    [ins.program] + ([|ins.accounts|] + ToLE(|ins.data|, 2))
  }

  function EncodeHeaders(inss: seq<Instruction>): Bytes
    requires forall ins | ins in inss :: Encodable(ins)
  {
    if inss == [] then [] else EncodeHeader(inss[0]) + EncodeHeaders(inss[1..])
  }

  function EncodePayloads(inss: seq<Instruction>): Bytes {
    if inss == [] then [] else inss[0].accounts + inss[0].data + EncodePayloads(inss[1..])
  }

  ghost function EncodeTail(tx: V1Transaction): Bytes
    requires Shaped(tx)
  {
    EncodeConfig(tx.config)
    + (EncodeHeaders(tx.instructions) + (EncodePayloads(tx.instructions) + Flatten(tx.signatures)))
  }

  /** The fixed fields in wire order, then the addresses and everything after them. */
  function EncodePreamble(
      signatures: byte, readonly: Bytes, mask: Bytes, lifetime: Bytes, instructions: byte, addresses: byte,
      flat: Bytes, rest: Bytes): Bytes
  {
    [V1_PREFIX] + ([signatures] + (readonly + (mask + (lifetime
    + ([instructions] + ([addresses] + (flat + rest)))))))
  }

  ghost function EncodeV1(tx: V1Transaction): Bytes
    requires Shaped(tx)
  {
    EncodePreamble(|tx.signatures|, tx.readonly, ToLE(MaskOf(tx.config), 4), tx.lifetime,
                   |tx.instructions|, |tx.addresses|, Flatten(tx.addresses), EncodeTail(tx))
  }

  // ----- what a transaction declares

  /** Only one half of the fee is given. */
  ghost predicate BadBudget(tx: V1Transaction)
    requires Shaped(tx)
  {
    tx.config[0].Some? != tx.config[1].Some?
  }

  ghost predicate Declares(tx: V1Transaction, info: TransactionInfo)
    requires WellFormed(tx)
  {
    && info.numInstructions == |tx.instructions|
    && info.numSignatures == |tx.signatures|
    && info.isVersioned
    && info.cuLimitDefaulted == tx.config[2].None?
    && info.cuLimit == (if tx.config[2].Some? then tx.config[2].value else 0)
    && info.priorityFee == DeclaredFee(tx)
    && info.cuPrice.Some? == info.priorityFee.Some?
    && (info.cuPrice.Some? ==> IsPrice(info.cuPrice.value, info.priorityFee.value, EffectiveLimit(info.cuLimit)))
  }

  ghost function DeclaredFee(tx: V1Transaction): Option<nat>
    requires Shaped(tx)
  {
    if tx.config[0].Some? && tx.config[1].Some?
    then Some(tx.config[1].value * 0x1_0000_0000 + tx.config[0].value)
    else None
  }

  /** `price` is the fee per compute unit in micro-lamports, rounded down and capped at 2^64 - 1. */
  ghost predicate IsPrice(price: nat, fee: nat, limit: nat) {
    if limit == 0 then price == 0
    else price <= U64_MAX && price * limit <= fee * MICRO && (price < U64_MAX ==> fee * MICRO < (price + 1) * limit)
  }

  lemma DerivedPriceIsPrice(fee: nat, limit: nat)
    ensures IsPrice(DerivedPrice(fee, limit), fee, limit)
  {
    if limit > 0 {
      DivisionBounds(fee * MICRO, limit);
      var q := fee * MICRO / limit;
      var p := Min(q, U64_MAX);
      assert p * limit <= q * limit;
    }
  }

  // ----- the mask and the config words

  lemma {:induction false} MaskBit(config: seq<Option<nat>>, bit: nat)
    requires bit < |config|
    ensures BitSet(MaskOf(config), bit) <==> config[bit].Some?
  {
    if bit > 0 {
      assert MaskOf(config) / 2 == MaskOf(config[1..]);
      MaskBit(config[1..], bit - 1);
    }
  }

  ghost function Pow2(n: nat): nat {
    if n == 0 then 1 else 2 * Pow2(n - 1)
  }

  lemma {:induction false} MaskBound(config: seq<Option<nat>>)
    ensures MaskOf(config) < Pow2(|config|)
  {
    if config != [] {
      MaskBound(config[1..]);
    }
  }

  lemma Mask32(config: seq<Option<nat>>)
    requires |config| == 32
    ensures MaskOf(config) < Pow256(4)
  {
    MaskBound(config);
    Widths();
    assert Pow2(8) == 256;
    Pow2Add(8, 8);
    Pow2Add(16, 16);
  }

  lemma {:induction false} Pow2Add(a: nat, b: nat)
    ensures Pow2(a + b) == Pow2(a) * Pow2(b)
  {
    if a > 0 {
      Pow2Add(a - 1, b);
    }
  }

  /** How many of the mask bits below `bit` are set. */
  ghost function PopCountBelow(mask: nat, bit: nat): nat {
    if bit == 0 then 0 else PopCountBelow(mask, bit - 1) + (if BitSet(mask, bit - 1) then 1 else 0)
  }

  ghost function Words(config: seq<Option<nat>>): nat {
    if config == [] then 0 else (if config[0].Some? then 1 else 0) + Words(config[1..])
  }

  lemma {:induction false} ConfigLength(config: seq<Option<nat>>)
    ensures |EncodeConfig(config)| == 4 * Words(config)
  {
    if config != [] {
      ConfigLength(config[1..]);
    }
  }

  lemma {:induction false} WordsSnoc(config: seq<Option<nat>>, bit: nat)
    requires bit < |config|
    ensures Words(config[..bit + 1]) == Words(config[..bit]) + (if config[bit].Some? then 1 else 0)
  {
    if bit > 0 {
      WordsSnoc(config[1..], bit - 1);
      assert config[..bit + 1][1..] == config[1..][..bit] && config[..bit][1..] == config[1..][..bit - 1];
    } else {
      assert config[..1][1..] == [];
    }
  }

  lemma {:induction false} PopCountIsWords(config: seq<Option<nat>>, bit: nat)
    requires bit <= |config|
    ensures PopCountBelow(MaskOf(config), bit) == Words(config[..bit])
  {
    if bit > 0 {
      PopCountIsWords(config, bit - 1);
      WordsSnoc(config, bit - 1);
      MaskBit(config, bit - 1);
    }
  }

  lemma {:induction false} ConfigSplit(config: seq<Option<nat>>, bit: nat)
    requires bit <= |config|
    ensures EncodeConfig(config) == EncodeConfig(config[..bit]) + EncodeConfig(config[bit..])
  {
    if bit == 0 {
      assert config[..0] == [] && config[0..] == config;
    } else {
      ConfigSplit(config[1..], bit - 1);
      assert config[..bit][1..] == config[1..][..bit - 1] && config[1..][bit - 1..] == config[bit..];
    }
  }

  /** Each config word sits at the popcount of the mask bits below its own. */
  lemma ConfigWordPosition(config: seq<Option<nat>>, bit: nat)
    requires bit < |config| && config[bit].Some?
    ensures var at := 4 * PopCountBelow(MaskOf(config), bit);
            at + 4 <= |EncodeConfig(config)| && EncodeConfig(config)[at..at + 4] == ToLE(config[bit].value, 4)
  {
    PopCountIsWords(config, bit);
    ConfigSplit(config, bit);
    ConfigLength(config[..bit]);
    var tail := config[bit..];
    assert tail[0] == config[bit];
    assert EncodeConfig(tail) == ToLE(config[bit].value, 4) + EncodeConfig(tail[1..]);
  }

  // ----- parsing what was encoded

  /** `word` if it is present and lies at or above `bit`, otherwise what was there before. */
  ghost function Latest(config: seq<Option<nat>>, bit: nat, slot: nat, before: Option<nat>): Option<nat>
    requires slot < |config|
  {
    if bit <= slot && config[slot].Some? then config[slot] else before
  }

  ghost function StoreFrom(c: Config, config: seq<Option<nat>>, bit: nat): Config
    requires |config| == 32
  {
    Config(Latest(config, bit, 0, c.feeLow), Latest(config, bit, 1, c.feeHigh), Latest(config, bit, 2, c.limit))
  }

  lemma {:induction false} ConfigRoundTrip(config: seq<Option<nat>>, bit: nat, c: Config, rest: Bytes)
    requires |config| == 32 && WordsFit(config) && bit <= 32
    ensures ParseConfig(EncodeConfig(config[bit..]) + rest, MaskOf(config), bit, c)
         == Ok((StoreFrom(c, config, bit), rest))
    decreases 32 - bit
  {
    if bit == 32 {
      assert EncodeConfig(config[32..]) + rest == rest;
    } else {
      MaskBit(config, bit);
      assert config[bit..][1..] == config[bit + 1..];
      var tail := EncodeConfig(config[bit + 1..]) + rest;
      if config[bit].None? {
        assert EncodeConfig(config[bit..]) + rest == tail;
        ConfigRoundTrip(config, bit + 1, c, rest);
      } else {
        var word := config[bit].value;
        assert EncodeConfig(config[bit..]) + rest == ToLE(word, 4) + tail;
        TakePrefix(ToLE(word, 4), tail);
        Widths();
        LittleEndianRoundTrip(word, 4);
        ConfigRoundTrip(config, bit + 1, Store(c, bit, word), rest);
      }
    }
  }

  lemma HeaderRoundTrip(ins: Instruction, addresses: nat, rest: Bytes)
    requires Encodable(ins) && ins.program < addresses
    ensures ParseHeader(EncodeHeader(ins) + rest, addresses) == Ok((|ins.accounts| + |ins.data|, rest))
  {
    var len := ToLE(|ins.data|, 2);
    var s := EncodeHeader(ins) + rest;
    assert s[1..] == [|ins.accounts|] + (len + rest);
    assert s[1..][1..] == len + rest;
    TakePrefix(len, rest);
    Widths();
    LittleEndianRoundTrip(|ins.data|, 2);
  }

  lemma HeadersCons(inss: seq<Instruction>, rest: Bytes)
    requires inss != [] && forall ins | ins in inss :: Encodable(ins)
    ensures EncodeHeaders(inss) + rest == EncodeHeader(inss[0]) + (EncodeHeaders(inss[1..]) + rest)
  {
    var head, tail := EncodeHeader(inss[0]), EncodeHeaders(inss[1..]);
    assert (head + tail) + rest == head + (tail + rest);
  }

  lemma HeadersStep(s: Bytes, n: nat, addresses: nat, payload: nat, length: nat, rest: Bytes)
    requires n > 0 && ParseHeader(s, addresses) == Ok((length, rest))
    ensures ParseHeaders(s, n, addresses, payload) == ParseHeaders(rest, n - 1, addresses, payload + length)
  {
  }

  ghost function PayloadLength(inss: seq<Instruction>): nat {
    if inss == [] then 0 else |inss[0].accounts| + |inss[0].data| + PayloadLength(inss[1..])
  }

  lemma {:induction false} PayloadsLength(inss: seq<Instruction>)
    ensures |EncodePayloads(inss)| == PayloadLength(inss)
  {
    if inss != [] {
      PayloadsLength(inss[1..]);
    }
  }

  lemma {:induction false} HeadersRoundTrip(inss: seq<Instruction>, addresses: nat, payload: nat, rest: Bytes)
    requires AllWellFormed(inss, addresses)
    ensures ParseHeaders(EncodeHeaders(inss) + rest, |inss|, addresses, payload)
         == Ok((payload + PayloadLength(inss), rest))
    decreases |inss|
  {
    if inss == [] {
      assert EncodeHeaders(inss) + rest == rest;
    } else {
      GoodHead(inss, addresses, payload, rest);
      HeadersRoundTrip(inss[1..], addresses, payload + |inss[0].accounts| + |inss[0].data|, rest);
    }
  }

  lemma GoodHead(inss: seq<Instruction>, addresses: nat, payload: nat, rest: Bytes)
    requires inss != [] && (forall ins | ins in inss :: Encodable(ins)) && inss[0].program < addresses
    ensures ParseHeaders(EncodeHeaders(inss) + rest, |inss|, addresses, payload)
         == ParseHeaders(EncodeHeaders(inss[1..]) + rest, |inss| - 1, addresses,
                         payload + |inss[0].accounts| + |inss[0].data|)
  {
    var tail := EncodeHeaders(inss[1..]) + rest;
    var length := |inss[0].accounts| + |inss[0].data|;
    HeadersCons(inss, rest);
    HeaderRoundTrip(inss[0], addresses, tail);
    HeadersStep(EncodeHeader(inss[0]) + tail, |inss|, addresses, payload, length, tail);
  }

  /** The preamble parser, one field at a time. */
  lemma PreambleRoundTrip(
      signatures: byte, readonly: Bytes, mask: Bytes, lifetime: Bytes, instructions: byte, addresses: byte,
      flat: Bytes, rest: Bytes)
    requires |readonly| == 2 && |mask| == 4 && |lifetime| == 32 && |flat| == 32 * (addresses as nat)
    ensures ParsePreamble(EncodePreamble(signatures, readonly, mask, lifetime, instructions, addresses, flat, rest))
         == Ok((Preamble(signatures, FromLE(mask), instructions, addresses), rest))
  {
    var s7 := flat + rest;
    var s6 := [addresses] + s7;
    var s5 := [instructions] + s6;
    var s4 := lifetime + s5;
    var s3 := mask + s4;
    var s2 := readonly + s3;
    var s1 := [signatures] + s2;
    assert ([V1_PREFIX] + s1)[1..] == s1 && s1[1..] == s2 && s5[1..] == s6 && s6[1..] == s7;
    TakePrefix(readonly, s3);
    TakePrefix(mask, s4);
    TakePrefix(lifetime, s5);
    TakePrefix(flat, rest);
  }

  lemma ParsePreambleEncoded(tx: V1Transaction)
    requires Shaped(tx)
    ensures ParsePreamble(EncodeV1(tx))
         == Ok((PreambleOf(tx), EncodeTail(tx)))
  {
    FlattenLength(tx.addresses, 32);
    Mask32(tx.config);
    LittleEndianRoundTrip(MaskOf(tx.config), 4);
    PreambleRoundTrip(|tx.signatures|, tx.readonly, ToLE(MaskOf(tx.config), 4), tx.lifetime,
                      |tx.instructions|, |tx.addresses|, Flatten(tx.addresses), EncodeTail(tx));
  }

  /** The tail parser, one section at a time. */
  lemma TailSteps(s: Bytes, p: Preamble, config: Config, s1: Bytes, payload: nat, s2: Bytes, skipped: Bytes, s3: Bytes)
    requires ParseConfig(s, p.mask, 0, NO_CONFIG) == Ok((config, s1))
    requires ParseHeaders(s1, p.instructions, p.addresses, 0) == Ok((payload, s2))
    requires TakeBytes(s2, payload) == Ok((skipped, s3))
    ensures match PairFee(config)
            case Ok(fee) => ParseTail(s, p) == Ok((V1Scan(fee, config.limit, p.instructions, p.signatures), s3))
            case Err(e) => ParseTail(s, p) == Err(e)
  {
  }

  ghost function PreambleOf(tx: V1Transaction): Preamble {
    Preamble(|tx.signatures|, MaskOf(tx.config), |tx.instructions|, |tx.addresses|)
  }

  ghost function ScanOf(tx: V1Transaction): V1Scan
    requires WellFormed(tx)
  {
    V1Scan(DeclaredFee(tx), tx.config[2], |tx.instructions|, |tx.signatures|)
  }

  lemma PairFeeEncoded(tx: V1Transaction)
    requires Shaped(tx)
    ensures PairFee(StoreFrom(NO_CONFIG, tx.config, 0))
         == if BadBudget(tx) then Err(InvalidBudget) else Ok(DeclaredFee(tx))
  {
  }

  lemma ParseTailEncoded(tx: V1Transaction)
    requires WellFormed(tx)
    ensures BadBudget(tx) ==> ParseTail(EncodeTail(tx), PreambleOf(tx)) == Err(InvalidBudget)
    ensures !BadBudget(tx) ==> ParseTail(EncodeTail(tx), PreambleOf(tx)) == Ok((ScanOf(tx), Flatten(tx.signatures)))
  {
    var s3 := Flatten(tx.signatures);
    var payloads := EncodePayloads(tx.instructions);
    var s2 := payloads + s3;
    var s1 := EncodeHeaders(tx.instructions) + s2;
    var config := StoreFrom(NO_CONFIG, tx.config, 0);
    ParseConfigEncoded(tx.config, s1);
    ParseHeadersEncoded(tx.instructions, |tx.addresses|, payloads, s2);
    TakePrefix(payloads, s3);
    PairFeeEncoded(tx);
    TailSteps(EncodeTail(tx), PreambleOf(tx), config, s1, |payloads|, s2, payloads, s3);
    ScanOfConfig(tx, config);
  }

  lemma ScanOfConfig(tx: V1Transaction, config: Config)
    requires WellFormed(tx) && config == StoreFrom(NO_CONFIG, tx.config, 0)
    ensures V1Scan(DeclaredFee(tx), config.limit, |tx.instructions|, |tx.signatures|) == ScanOf(tx)
  {
  }

  lemma ParseHeadersEncoded(inss: seq<Instruction>, addresses: nat, payloads: Bytes, rest: Bytes)
    requires AllWellFormed(inss, addresses) && payloads == EncodePayloads(inss)
    ensures ParseHeaders(EncodeHeaders(inss) + rest, |inss|, addresses, 0) == Ok((|payloads|, rest))
  {
    HeadersRoundTrip(inss, addresses, 0, rest);
    PayloadsLength(inss);
  }

  lemma ParseConfigEncoded(config: seq<Option<nat>>, rest: Bytes)
    requires |config| == 32 && WordsFit(config)
    ensures ParseConfig(EncodeConfig(config) + rest, MaskOf(config), 0, NO_CONFIG)
         == Ok((StoreFrom(NO_CONFIG, config, 0), rest))
  {
    assert config[0..] == config;
    ConfigRoundTrip(config, 0, NO_CONFIG, rest);
  }

  /** Decoding a v1 encoding yields its declared fee, limit and counts, or flags half a fee. */
  lemma V1RoundTrip(tx: V1Transaction)
    requires WellFormed(tx)
    ensures match ScanV1(EncodeV1(tx))
            case Ok(scan) => !BadBudget(tx) && Declares(tx, SummariseV1(scan))
            case Err(e) => e == InvalidBudget && BadBudget(tx)
  {
    ParsePreambleEncoded(tx);
    ParseTailEncoded(tx);
    FlattenLength(tx.signatures, 64);
    if !BadBudget(tx) && DeclaredFee(tx).Some? {
      DerivedPriceIsPrice(DeclaredFee(tx).value, EffectiveLimit(SummariseV1(ScanOf(tx)).cuLimit));
    }
  }

  // ----- an instruction that names no program

  ghost predicate NamesNoProgram(inss: seq<Instruction>, addresses: nat) {
    exists i :: 0 <= i < |inss| && inss[i].program >= addresses
  }

  lemma BadHeader(ins: Instruction, addresses: nat, rest: Bytes)
    requires Encodable(ins) && ins.program >= addresses
    ensures ParseHeader(EncodeHeader(ins) + rest, addresses) == Err(Unparsed)
  {
    assert (EncodeHeader(ins) + rest)[0] == ins.program;
  }

  lemma {:induction false} BadHeaders(inss: seq<Instruction>, addresses: nat, payload: nat, rest: Bytes)
    requires (forall ins | ins in inss :: Encodable(ins)) && NamesNoProgram(inss, addresses)
    ensures ParseHeaders(EncodeHeaders(inss) + rest, |inss|, addresses, payload) == Err(Unparsed)
    decreases |inss|
  {
    if inss[0].program >= addresses {
      BadHead(inss, addresses, payload, rest);
    } else {
      BadInRest(inss, addresses);
      BadHeaders(inss[1..], addresses, payload + |inss[0].accounts| + |inss[0].data|, rest);
      GoodHead(inss, addresses, payload, rest);
    }
  }

  lemma BadHead(inss: seq<Instruction>, addresses: nat, payload: nat, rest: Bytes)
    requires inss != [] && (forall ins | ins in inss :: Encodable(ins)) && inss[0].program >= addresses
    ensures ParseHeaders(EncodeHeaders(inss) + rest, |inss|, addresses, payload) == Err(Unparsed)
  {
    HeadersCons(inss, rest);
    BadHeader(inss[0], addresses, EncodeHeaders(inss[1..]) + rest);
  }

  lemma BadInRest(inss: seq<Instruction>, addresses: nat)
    requires NamesNoProgram(inss, addresses) && inss[0].program < addresses
    ensures NamesNoProgram(inss[1..], addresses)
  {
    var i :| 0 <= i < |inss| && inss[i].program >= addresses;
    assert inss[1..][i - 1] == inss[i];
  }

  /** Such a transaction is Unparsed, unless half a fee was found before the instructions were. */
  lemma UnknownProgramRejected(tx: V1Transaction)
    requires Shaped(tx) && NamesNoProgram(tx.instructions, |tx.addresses|)
    ensures ScanV1(EncodeV1(tx)) == Err(if BadBudget(tx) then InvalidBudget else Unparsed)
  {
    var s2 := EncodePayloads(tx.instructions) + Flatten(tx.signatures);
    var s1 := EncodeHeaders(tx.instructions) + s2;
    ParsePreambleEncoded(tx);
    ParseConfigEncoded(tx.config, s1);
    PairFeeEncoded(tx);
    BadHeaders(tx.instructions, |tx.addresses|, 0, s2);
    BadTail(EncodeTail(tx), PreambleOf(tx), StoreFrom(NO_CONFIG, tx.config, 0), s1);
  }

  lemma BadTail(s: Bytes, p: Preamble, config: Config, s1: Bytes)
    requires ParseConfig(s, p.mask, 0, NO_CONFIG) == Ok((config, s1))
    requires ParseHeaders(s1, p.instructions, p.addresses, 0) == Err(Unparsed)
    ensures ParseTail(s, p) == match PairFee(config)
                               case Ok(_) => Err(Unparsed)
                               case Err(e) => Err(e)
  {
  }
}
