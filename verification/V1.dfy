/**
  * The v1 half of the transaction decoder (src/tx.rs, SIMD-0385): the message comes first,
  * the compute budget sits in mask-selected config words, the signatures come last and
  * must fill the buffer exactly.
  */
module V1 {
  import opened Common
  import opened Wire
  import opened Fees
  import opened Legacy

  const V1_PREFIX: byte := 0x81

  /** The config words the decoder keeps. */
  datatype Config = Config(feeLow: Option<nat>, feeHigh: Option<nat>, limit: Option<nat>)

  const NO_CONFIG := Config(None, None, None)

  datatype Preamble = Preamble(signatures: nat, mask: nat, instructions: nat, addresses: nat)

  datatype V1Scan = V1Scan(fee: Option<nat>, limit: Option<nat>, instructions: nat, signatures: nat)

  // ----- parsing

  /** `mask & (1 << bit) != 0` */
  predicate BitSet(mask: nat, bit: nat) {
    if bit == 0 then mask % 2 == 1 else BitSet(mask / 2, bit - 1)
  }

  function ParsePreamble(s: Bytes): Parsed<Preamble> {
    var (_, s1) :- TakeByte(s);
    var (signatures, s2) :- TakeByte(s1);
    var (_, s3) :- TakeBytes(s2, 2);
    var (mask, s4) :- TakeBytes(s3, 4);
    var (_, s5) :- TakeBytes(s4, 32);
    var (instructions, s6) :- TakeByte(s5);
    var (addresses, s7) :- TakeByte(s6);
    var (_, s8) :- TakeBytes(s7, 32 * (addresses as nat));
    Ok((Preamble(signatures, FromLE(mask), instructions, addresses), s8))
  }

  function Store(c: Config, bit: nat, word: nat): Config {
    if bit == 0 then c.(feeLow := Some(word))
    else if bit == 1 then c.(feeHigh := Some(word))
    else if bit == 2 then c.(limit := Some(word))
    else c
  }

  /** Reads the words of the mask bits from `bit` up. */
  function ParseConfig(s: Bytes, mask: nat, bit: nat, c: Config): Parsed<Config>
    requires bit <= 32
    decreases 32 - bit
  {
    if bit == 32 then Ok((c, s))
    else if !BitSet(mask, bit) then ParseConfig(s, mask, bit + 1, c)
    else
      var (word, rest) :- TakeBytes(s, 4);
      ParseConfig(rest, mask, bit + 1, Store(c, bit, FromLE(word)))
  }

  /** Half a fee is an error; no fee is not. */
  function PairFee(c: Config): Result<Option<nat>, DecodeError> {
    match (c.feeLow, c.feeHigh)
    case (Some(low), Some(high)) => Ok(Some(high * 0x1_0000_0000 + low))
    case (None, None) => Ok(None)
    case _ => Err(InvalidBudget)
  }

  /** One instruction header: the program index is checked, the payload length is added up. */
  function ParseHeader(s: Bytes, addresses: nat): Parsed<nat> {
    var (program, s1) :- TakeByte(s);
    if program >= addresses then Err(Unparsed) else
    var (accounts, s2) :- TakeByte(s1);
    var (dataLen, s3) :- TakeBytes(s2, 2);
    Ok((accounts + FromLE(dataLen), s3))
  }

  function ParseHeaders(s: Bytes, n: nat, addresses: nat, payload: nat): Parsed<nat>
    decreases n
  {
    if n == 0 then Ok((payload, s)) else
    var (length, rest) :- ParseHeader(s, addresses);
    ParseHeaders(rest, n - 1, addresses, payload + length)
  }

  /** Config words, instruction headers and payloads, after the preamble. */
  function ParseTail(s: Bytes, p: Preamble): Parsed<V1Scan> {
    var (config, s1) :- ParseConfig(s, p.mask, 0, NO_CONFIG);
    var fee :- PairFee(config);
    var (payload, s2) :- ParseHeaders(s1, p.instructions, p.addresses, 0);
    var (_, s3) :- TakeBytes(s2, payload);
    Ok((V1Scan(fee, config.limit, p.instructions, p.signatures), s3))
  }

  /** Everything before the signatures. */
  function ParseV1(s: Bytes): Parsed<V1Scan> {
    var (preamble, rest) :- ParsePreamble(s);
    ParseTail(rest, preamble)
  }

  function ScanV1(s: Bytes): Result<V1Scan, DecodeError> {
    var (scan, rest) :- ParseV1(s);
    if |rest| != 64 * scan.signatures then Err(Unparsed) else Ok(scan)
  }

  function SummariseV1(scan: V1Scan): TransactionInfo {
    var limit := if scan.limit.Some? then scan.limit.value else 0;
    TransactionInfo(
      limit,
      scan.limit.None?,
      if scan.fee.Some? then Some(DerivedPrice(scan.fee.value, EffectiveLimit(limit))) else None,
      scan.fee,
      scan.instructions,
      scan.signatures,
      true)
  }

  // ----- the decoder

  method ReadPreamble(c: Cursor) returns (r: Result<Preamble, DecodeError>)
    requires c.Valid()
    modifies c
    ensures c.Valid() && Agrees(ParsePreamble(old(c.Rest())), r, c.Rest())
  {
    var _ :- c.Byte();
    var signatures :- c.Byte();
    var _ :- c.Skip(2);
    var mask :- c.Take(4);
    var _ :- c.Skip(32);
    var instructions :- c.Byte();
    var addresses :- c.Byte();
    var _ :- c.Skip(32 * (addresses as nat));
    return Ok(Preamble(signatures, FromLE(mask), instructions, addresses));
  }

  method ReadConfig(c: Cursor, mask: nat) returns (r: Result<Config, DecodeError>)
    requires c.Valid()
    modifies c
    ensures c.Valid() && Agrees(ParseConfig(old(c.Rest()), mask, 0, NO_CONFIG), r, c.Rest())
  {
    var config := NO_CONFIG;
    for bit := 0 to 32
      invariant c.Valid()
      invariant ParseConfig(old(c.Rest()), mask, 0, NO_CONFIG) == ParseConfig(c.Rest(), mask, bit, config)
    {
      if BitSet(mask, bit) {
        var word :- c.Take(4);
        config := Store(config, bit, FromLE(word));
      }
    }
    return Ok(config);
  }

  method ReadHeader(c: Cursor, addresses: nat) returns (r: Result<nat, DecodeError>)
    requires c.Valid()
    modifies c
    ensures c.Valid() && Agrees(ParseHeader(old(c.Rest()), addresses), r, c.Rest())
  {
    var program :- c.Byte();
    if program >= addresses {
      return Err(Unparsed);
    }
    var accounts :- c.Byte();
    var dataLen :- c.Take(2);
    return Ok(accounts + FromLE(dataLen));
  }

  method ReadHeaders(c: Cursor, n: nat, addresses: nat) returns (r: Result<nat, DecodeError>)
    requires c.Valid()
    modifies c
    ensures c.Valid() && Agrees(ParseHeaders(old(c.Rest()), n, addresses, 0), r, c.Rest())
  {
    var payload: nat := 0;
    for i := 0 to n
      invariant c.Valid()
      invariant ParseHeaders(old(c.Rest()), n, addresses, 0) == ParseHeaders(c.Rest(), n - i, addresses, payload)
    {
      var length :- ReadHeader(c, addresses);
      payload := payload + length;
    }
    return Ok(payload);
  }

  method ReadTail(c: Cursor, p: Preamble) returns (r: Result<V1Scan, DecodeError>)
    requires c.Valid()
    modifies c
    ensures c.Valid() && Agrees(ParseTail(old(c.Rest()), p), r, c.Rest())
  {
    var config :- ReadConfig(c, p.mask);
    var fee :- PairFee(config);
    var payload :- ReadHeaders(c, p.instructions, p.addresses);
    var _ :- c.Skip(payload);
    return Ok(V1Scan(fee, config.limit, p.instructions, p.signatures));
  }

  method ReadV1(bytes: Bytes) returns (r: Result<V1Scan, DecodeError>)
    ensures r == ScanV1(bytes)
  {
    var c := new Cursor(bytes);
    var preamble :- ReadPreamble(c);
    var scan :- ReadTail(c, preamble);
    var remaining := c.Remaining();
    if remaining != 64 * scan.signatures {
      return Err(Unparsed);
    }
    return Ok(scan);
  }

  // ----- appended bytes

  lemma ParsePreambleExtends(s: Bytes, t: Bytes)
    ensures Extends(ParsePreamble(s), ParsePreamble(s + t), t)
  {
    if ParsePreamble(s).Ok? {
      TakeByteExtends(s, t);
      TakeByteExtends(s[1..], t);
      TakeBytesExtends(s[1..][1..], 2, t);
      var s3 := s[1..][1..][2..];
      TakeBytesExtends(s3, 4, t);
      TakeBytesExtends(s3[4..], 32, t);
      var s5 := s3[4..][32..];
      TakeByteExtends(s5, t);
      TakeByteExtends(s5[1..], t);
      TakeBytesExtends(s5[1..][1..], 32 * (s5[1..][0] as nat), t);
    }
  }

  lemma {:induction false} ParseConfigExtends(s: Bytes, mask: nat, bit: nat, c: Config, t: Bytes)
    requires bit <= 32
    ensures Extends(ParseConfig(s, mask, bit, c), ParseConfig(s + t, mask, bit, c), t)
    decreases 32 - bit
  {
    if bit < 32 {
      if !BitSet(mask, bit) {
        ParseConfigExtends(s, mask, bit + 1, c, t);
      } else if 4 <= |s| {
        TakeBytesExtends(s, 4, t);
        ParseConfigExtends(s[4..], mask, bit + 1, Store(c, bit, FromLE(s[..4])), t);
      }
    }
  }

  lemma ParseHeaderExtends(s: Bytes, addresses: nat, t: Bytes)
    ensures Extends(ParseHeader(s, addresses), ParseHeader(s + t, addresses), t)
  {
    TakeByteExtends(s, t);
    if |s| > 1 {
      TakeByteExtends(s[1..], t);
      TakeBytesExtends(s[1..][1..], 2, t);
    }
  }

  lemma {:induction false} ParseHeadersExtends(s: Bytes, n: nat, addresses: nat, payload: nat, t: Bytes)
    ensures Extends(ParseHeaders(s, n, addresses, payload), ParseHeaders(s + t, n, addresses, payload), t)
    decreases n
  {
    if n > 0 {
      ParseHeaderExtends(s, addresses, t);
      if ParseHeader(s, addresses).Ok? {
        var (length, rest) := ParseHeader(s, addresses).value;
        ParseHeadersExtends(rest, n - 1, addresses, payload + length, t);
      }
    }
  }

  lemma ParseTailExtends(s: Bytes, p: Preamble, t: Bytes)
    ensures Extends(ParseTail(s, p), ParseTail(s + t, p), t)
  {
    ParseConfigExtends(s, p.mask, 0, NO_CONFIG, t);
    if ParseConfig(s, p.mask, 0, NO_CONFIG).Ok? {
      var (config, s1) := ParseConfig(s, p.mask, 0, NO_CONFIG).value;
      ParseHeadersExtends(s1, p.instructions, p.addresses, 0, t);
      if ParseHeaders(s1, p.instructions, p.addresses, 0).Ok? {
        var (payload, s2) := ParseHeaders(s1, p.instructions, p.addresses, 0).value;
        TakeBytesExtends(s2, payload, t);
      }
    }
  }

  lemma ParseV1Extends(s: Bytes, t: Bytes)
    ensures Extends(ParseV1(s), ParseV1(s + t), t)
  {
    ParsePreambleExtends(s, t);
    if ParsePreamble(s).Ok? {
      var (preamble, rest) := ParsePreamble(s).value;
      ParseTailExtends(rest, preamble, t);
    }
  }

  /**
    * Accepted v1 byte strings are prefix-free: no other accepted string extends one, and
    * every strict prefix or extension of one is unparsed.
    */
  lemma AcceptedV1IsPrefixFree(s: Bytes, t: Bytes)
    requires t != []
    ensures ScanV1(s).Ok? ==> ScanV1(s + t) == Err(Unparsed)
    ensures ScanV1(s + t).Ok? ==> ScanV1(s) == Err(Unparsed)
  {
    ParseV1Extends(s, t);
  }
}
