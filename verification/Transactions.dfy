/**
  * Entry point of the transaction decoder (src/tx.rs): the length gate on the decoded
  * payload, the dispatch on the first byte, and the theorems about the decoder as a whole.
  */
module Transactions {
  import opened Common
  import opened Wire
  import opened Legacy
  import opened V1
  import LegacyCodec
  import V1Codec

  const MAX_LEGACY_LEN: nat := 1232
  const MAX_V1_LEN: nat := 4096

  type Verdict = Result<TransactionInfo, DecodeError>

  function Verdict1(scanned: Result<V1Scan, DecodeError>): Verdict {
    match scanned
    case Ok(scan) => Ok(SummariseV1(scan))
    case Err(e) => Err(e)
  }

  function Verdict0(parsed: Parsed<Scan>): Verdict {
    match parsed
    case Ok((scan, _)) => Ok(Summarise(scan))
    case Err(e) => Err(e)
  }

  function Decoded(bytes: Bytes): Verdict {
    if bytes != [] && bytes[0] == V1_PREFIX then Verdict1(ScanV1(bytes))
    else if bytes != [] && bytes[0] > V1_PREFIX then Err(Unsupported)
    else Verdict0(ParseLegacy(bytes))
  }

  method DecodeTransaction(bytes: Bytes) returns (r: Verdict)
    ensures r == Decoded(bytes)
  {
    if |bytes| > 0 {
      if bytes[0] == V1_PREFIX {
        var scan :- ReadV1(bytes);
        return Ok(SummariseV1(scan));
      }
      if bytes[0] > V1_PREFIX {
        return Err(Unsupported);
      }
    }
    var scan :- ReadLegacy(bytes);
    return Ok(Summarise(scan));
  }

  /** The payload of a sendTransaction request, once its text encoding is undone. */
  function DecodedPayload(bytes: Bytes): Verdict {
    var maxLen := if bytes != [] && bytes[0] == V1_PREFIX then MAX_V1_LEN else MAX_LEGACY_LEN;
    if |bytes| > maxLen then Err(Unparsed) else Decoded(bytes)
  }

  method DecodePayload(bytes: Bytes) returns (r: Verdict)
    ensures r == DecodedPayload(bytes)
  {
    var maxLen := MAX_LEGACY_LEN;
    if |bytes| > 0 && bytes[0] == V1_PREFIX {
      maxLen := MAX_V1_LEN;
    }
    if |bytes| > maxLen {
      return Err(Unparsed);
    }
    r := DecodeTransaction(bytes);
  }

  /** Which payloads are looked at at all, and which are left to a later version. */
  lemma LengthAndVersionGates(bytes: Bytes)
    ensures |bytes| > 4096 ==> DecodedPayload(bytes) == Err(Unparsed)
    ensures |bytes| > 1232 && bytes[0] != 0x81 ==> DecodedPayload(bytes) == Err(Unparsed)
    ensures 0 < |bytes| <= 1232 && bytes[0] >= 0x82 ==> DecodedPayload(bytes) == Err(Unsupported)
    ensures bytes == [] ==> DecodedPayload(bytes) == Err(Unparsed)
  {
  }

  /** A message of an unknown version is unsupported, whatever follows. */
  lemma UnknownVersionUnsupported(signatures: seq<Bytes>, version: byte, rest: Bytes)
    requires |signatures| <= 127 && AllOfWidth(signatures, 64) && version > 0x80
    requires |EncodeShortvec(|signatures|) + (Flatten(signatures) + ([version] + rest))| <= 1232
    ensures DecodedPayload(EncodeShortvec(|signatures|) + (Flatten(signatures) + ([version] + rest)))
         == Err(Unsupported)
  {
    var message := [version] + rest;
    LegacyCodec.SignaturesRoundTrip(signatures, message);
    assert message[0] == version;
  }

  // ----- decoding inverts encoding

  /** Every legacy or v0 transaction that fits a packet decodes to exactly what it declares. */
  lemma LegacyPayloadRoundTrip(tx: LegacyCodec.LegacyTransaction)
    requires LegacyCodec.WellFormed(tx)
    requires |LegacyCodec.Encode(tx)| <= MAX_LEGACY_LEN
    ensures match DecodedPayload(LegacyCodec.Encode(tx))
            case Ok(info) => !LegacyCodec.BadBudget(tx) && LegacyCodec.Declares(tx, info)
            case Err(e) => e == InvalidBudget && LegacyCodec.BadBudget(tx)
  {
    LegacyCodec.PacketFirstByte(tx);
    LegacyCodec.LegacyRoundTrip(tx);
  }

  /** Every v1 transaction within 4096 bytes decodes to exactly what it declares. */
  lemma V1PayloadRoundTrip(tx: V1Codec.V1Transaction)
    requires V1Codec.WellFormed(tx)
    requires |V1Codec.EncodeV1(tx)| <= MAX_V1_LEN
    ensures match DecodedPayload(V1Codec.EncodeV1(tx))
            case Ok(info) => !V1Codec.BadBudget(tx) && V1Codec.Declares(tx, info)
            case Err(e) => e == InvalidBudget && V1Codec.BadBudget(tx)
  {
    V1Codec.V1RoundTrip(tx);
  }

  /** The formats never collide: within the length gate no byte string encodes both. */
  lemma FormatsDisjoint(tx: LegacyCodec.LegacyTransaction, tx1: V1Codec.V1Transaction)
    requires LegacyCodec.WellFormed(tx) && V1Codec.WellFormed(tx1)
    requires |LegacyCodec.Encode(tx)| <= MAX_LEGACY_LEN
    ensures LegacyCodec.Encode(tx) != V1Codec.EncodeV1(tx1)
  {
    LegacyCodec.PacketFirstByte(tx);
  }

  // ----- prefixes and extensions

  /** Outside v1, any verdict other than Unparsed survives appended bytes. */
  lemma VerdictSurvivesAppend(s: Bytes, t: Bytes)
    requires s == [] || s[0] != V1_PREFIX
    ensures Decoded(s) != Err(Unparsed) ==> Decoded(s + t) == Decoded(s)
  {
    ParseLegacyExtends(s, t);
  }

  /** Every strict prefix and every strict extension of an accepted v1 transaction is Unparsed. */
  lemma AcceptedV1StandsAlone(s: Bytes, t: Bytes)
    requires t != []
    ensures s != [] && s[0] == V1_PREFIX && Decoded(s).Ok? ==> Decoded(s + t) == Err(Unparsed)
    ensures (s + t)[0] == V1_PREFIX && Decoded(s + t).Ok? ==> Decoded(s) == Err(Unparsed)
  {
    AcceptedV1IsPrefixFree(s, t);
  }

  /**
    * A prefix of a valid packet is Unparsed exactly when it ends before the instructions do:
    * the decoder reads all of the message and nothing of the lookups after it.
    */
  lemma LegacyPrefixes(tx: LegacyCodec.LegacyTransaction, k: nat)
    requires LegacyCodec.WellFormed(tx) && !LegacyCodec.BadBudget(tx)
    requires k <= |LegacyCodec.Encode(tx)| <= MAX_LEGACY_LEN
    ensures Decoded(LegacyCodec.Encode(tx)[..k]) == Err(Unparsed)
       <==> k < |LegacyCodec.Encode(tx)| - |tx.lookups|
  {
    LegacyCodec.PacketFirstByte(tx);
    LegacyCodec.LegacyRoundTrip(tx);
    if k < |LegacyCodec.Encode(tx)| - |tx.lookups| {
      CutInsideMessage(LegacyCodec.Encode(tx), k);
    } else {
      LegacyPrefixAccepted(tx, k);
    }
  }

  /** A prefix that ends before the parser's last byte is Unparsed. */
  lemma CutInsideMessage(whole: Bytes, k: nat)
    requires k <= |whole| && ParseLegacy(whole).Ok? && k < |whole| - |ParseLegacy(whole).value.1|
    ensures ParseLegacy(whole[..k]) == Err(Unparsed)
  {
    assert whole[..k] + whole[k..] == whole;
    ParseLegacyExtends(whole[..k], whole[k..]);
  }

  lemma LegacyPrefixAccepted(tx: LegacyCodec.LegacyTransaction, k: nat)
    requires LegacyCodec.WellFormed(tx) && !LegacyCodec.BadBudget(tx)
    requires |LegacyCodec.Encode(tx)| - |tx.lookups| <= k <= |LegacyCodec.Encode(tx)|
    ensures ParseLegacy(LegacyCodec.Encode(tx)[..k]).Ok?
  {
    var bare := tx.(lookups := []);
    LegacyCodec.LookupsLast(tx);
    LegacyCodec.LegacyRoundTrip(bare);
    AcceptedPlusBytes(LegacyCodec.Encode(bare), tx.lookups, k);
  }

  lemma AcceptedPlusBytes(s: Bytes, t: Bytes, k: nat)
    requires ParseLegacy(s).Ok?
    requires |s| <= k <= |s| + |t|
    ensures ParseLegacy((s + t)[..k]).Ok?
  {
    assert (s + t)[..k] == s + t[..k - |s|];
    ParseLegacyExtends(s, t[..k - |s|]);
  }
}
