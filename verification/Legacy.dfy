/**
  * The legacy/v0 half of the transaction decoder (src/tx.rs): signatures, header, account
  * keys, blockhash and instructions, with the compute budget collected from the
  * ComputeBudget instructions on the way.
  */
module Legacy {
  import opened Common
  import opened Wire
  import opened Fees

  // Program ids are compared as 32-byte arrays in the source. Here an id is the number its bytes
  // spell in big-endian order, so the hexadecimal digits below are the bytes of the array.

  const COMPUTE_BUDGET_ID: nat := 0x0306466F_E5211732_FFECADBA_72C39BE7_BC8CE5BB_C5F7126B_2C439B3A_40000000

  /** The programs that get the small default allotment (SIMD-0170); 0 is the System program. */
  const BUILTIN_PROGRAM_IDS: set<nat> := {
    0,
    COMPUTE_BUDGET_ID,
    0x02A8F691_4E88A1B0_E210153E_F763AE2B_00C2B93D_16C124D2_C0537A10_04800000,
    0x02A8F691_4E88A16B_BD239585_5F6404D9_B4F456B7_821BB014_5749428C_00000000,
    0x02A8F691_4E88A16E_395AE128_948FFA69_56933768_18DD4743_5221F3C6_00000000,
    0x0512B411_5151E37A_AD0A8BC5_D3882E7B_7FDA4CF3_D2C028C8_CF833618_00000000,
    0x04C6FC20_F050CCF0_5584D721_1C9F8CF5_9EC14785_BB166A1E_2830E812_20000000,
    0x037D46D6_7C93FBBE_12F9428F_838D40FF_05707449_27F48A64_FCCA7044_80000000}

  const BUILTIN_UNITS: nat := 3_000
  const INSTRUCTION_UNITS: nat := 200_000

  datatype TransactionInfo = TransactionInfo(
    cuLimit: nat,
    cuLimitDefaulted: bool,
    cuPrice: Option<nat>,
    priorityFee: Option<nat>,
    numInstructions: nat,
    numSignatures: nat,
    isVersioned: bool)

  datatype Instruction = Instruction(program: byte, accounts: Bytes, data: Bytes)

  /** What the instructions read so far have said about the compute budget. */
  datatype Budget = Budget(limit: Option<nat>, price: Option<nat>, defaultLimit: nat)

  const NO_BUDGET := Budget(None, None, 0)

  /** Everything the decoder keeps of a transaction before the final arithmetic. */
  datatype Scan = Scan(budget: Budget, instructions: nat, signatures: nat, versioned: bool)

  // ----- program ids

  function ProgramId(key: Bytes): (id: nat)
    ensures id < Pow256(|key|)
  {
    if key == [] then 0 else 256 * ProgramId(key[..|key| - 1]) + key[|key| - 1]
  }

  /** Comparing ids as numbers is comparing them byte by byte. */
  lemma {:induction false} ProgramIdInjective(a: Bytes, b: Bytes)
    requires |a| == |b| && ProgramId(a) == ProgramId(b)
    ensures a == b
  {
    if a != [] {
      var n := |a| - 1;
      ProgramIdInjective(a[..n], b[..n]);
      assert a == a[..n] + [a[n]] && b == b[..n] + [b[n]];
    }
  }

  // ----- parsing

  function DefaultUnits(key: Bytes): nat {
    if ProgramId(key) in BUILTIN_PROGRAM_IDS then BUILTIN_UNITS else INSTRUCTION_UNITS
  }

  function KeyAt(keys: Bytes, i: nat): Bytes
    requires 32 * i + 32 <= |keys|
  {
    keys[32 * i..32 * i + 32]
  }

  /** Accounts for one instruction of the program with the given key. */
  function Charge(b: Budget, key: Bytes, data: Bytes): Result<Budget, DecodeError> {
    var charged := b.(defaultLimit := SatAdd64(b.defaultLimit, DefaultUnits(key)));
    if ProgramId(key) != COMPUTE_BUDGET_ID then Ok(charged)
    else if data == [] then Err(InvalidBudget)
    else if data[0] == 2 then
      if |data| < 5 || charged.limit.Some? then Err(InvalidBudget)
      else Ok(charged.(limit := Some(FromLE(data[1..5]))))
    else if data[0] == 3 then
      if |data| < 9 || charged.price.Some? then Err(InvalidBudget)
      else Ok(charged.(price := Some(FromLE(data[1..9]))))
    else Ok(charged)
  }

  function ParseInstruction(s: Bytes, keyCount: nat): (r: Parsed<Instruction>)
    ensures r.Ok? ==> r.value.0.program < keyCount
  {
    var (program, s1) :- TakeByte(s);
    if program >= keyCount then Err(Unparsed) else
    var (accountCount, s2) :- Shortvec(s1);
    var (accounts, s3) :- TakeBytes(s2, accountCount);
    var (dataLen, s4) :- Shortvec(s3);
    var (data, s5) :- TakeBytes(s4, dataLen);
    Ok((Instruction(program, accounts, data), s5))
  }

  /** Reads one instruction and charges it to `b`. */
  function ParseCharge(s: Bytes, keys: Bytes, keyCount: nat, b: Budget): Parsed<Budget>
    requires |keys| == 32 * keyCount
  {
    var (ins, rest) :- ParseInstruction(s, keyCount);
    var b' :- Charge(b, KeyAt(keys, ins.program), ins.data);
    Ok((b', rest))
  }

  /** Reads `n` more instructions on top of the budget `b`. */
  function ParseInstructions(s: Bytes, n: nat, keys: Bytes, keyCount: nat, b: Budget): Parsed<Budget>
    requires |keys| == 32 * keyCount
    decreases n
  {
    if n == 0 then Ok((b, s)) else
    var (b', rest) :- ParseCharge(s, keys, keyCount, b);
    ParseInstructions(rest, n - 1, keys, keyCount, b')
  }

  function Summarise(scan: Scan): TransactionInfo {
    var b := scan.budget;
    var limit := if b.limit.Some? then b.limit.value else EffectiveLimit(b.defaultLimit);
    TransactionInfo(
      limit,
      b.limit.None?,
      b.price,
      if b.price.Some? then Some(PriorityFee(EffectiveLimit(limit), b.price.value)) else None,
      scan.instructions,
      scan.signatures,
      scan.versioned)
  }

  /** From the account keys on. */
  function ParseBody(s: Bytes, signatures: nat, versioned: bool): Parsed<Scan> {
    var (keyCount, s1) :- Shortvec(s);
    var (keys, s2) :- TakeBytes(s1, 32 * keyCount);
    var (_, s3) :- TakeBytes(s2, 32);
    var (count, s4) :- Shortvec(s3);
    var (budget, s5) :- ParseInstructions(s4, count, keys, keyCount, NO_BUDGET);
    Ok((Scan(budget, count, signatures, versioned), s5))
  }

  /** From the message header on. */
  function ParseMessage(s: Bytes, signatures: nat): Parsed<Scan> {
    var (first, s1) :- TakeByte(s);
    if first > 128 then Err(Unsupported) else
    var (_, s2) :- TakeBytes(s1, if first == 128 then 3 else 2);
    ParseBody(s2, signatures, first == 128)
  }

  function ParseLegacy(s: Bytes): Parsed<Scan> {
    var (signatures, s1) :- Shortvec(s);
    var (_, s2) :- TakeBytes(s1, 64 * signatures);
    ParseMessage(s2, signatures)
  }

  // ----- the decoder

  method ReadInstruction(c: Cursor, keyCount: nat) returns (r: Result<Instruction, DecodeError>)
    requires c.Valid()
    modifies c
    ensures c.Valid() && Agrees(ParseInstruction(old(c.Rest()), keyCount), r, c.Rest())
  {
    var program :- c.Byte();
    if program >= keyCount {
      return Err(Unparsed);
    }
    var accountCount :- c.ReadShortvec();
    var accounts :- c.Take(accountCount);
    var dataLen :- c.ReadShortvec();
    var data :- c.Take(dataLen);
    return Ok(Instruction(program, accounts, data));
  }

  method ReadCharge(c: Cursor, keys: Bytes, keyCount: nat, b: Budget) returns (r: Result<Budget, DecodeError>)
    requires c.Valid()
    requires |keys| == 32 * keyCount
    modifies c
    ensures c.Valid() && Agrees(ParseCharge(old(c.Rest()), keys, keyCount, b), r, c.Rest())
  {
    var ins :- ReadInstruction(c, keyCount);
    r := Charge(b, KeyAt(keys, ins.program), ins.data);
  }

  method ReadInstructions(c: Cursor, n: nat, keys: Bytes, keyCount: nat) returns (r: Result<Budget, DecodeError>)
    requires c.Valid()
    requires |keys| == 32 * keyCount
    modifies c
    ensures c.Valid()
    ensures Agrees(ParseInstructions(old(c.Rest()), n, keys, keyCount, NO_BUDGET), r, c.Rest())
  {
    var budget := NO_BUDGET;
    for i := 0 to n
      invariant c.Valid()
      invariant ParseInstructions(old(c.Rest()), n, keys, keyCount, NO_BUDGET)
             == ParseInstructions(c.Rest(), n - i, keys, keyCount, budget)
    {
      budget :- ReadCharge(c, keys, keyCount, budget);
    }
    return Ok(budget);
  }

  method ReadBody(c: Cursor, signatures: nat, versioned: bool) returns (r: Result<Scan, DecodeError>)
    requires c.Valid()
    modifies c
    ensures c.Valid() && Agrees(ParseBody(old(c.Rest()), signatures, versioned), r, c.Rest())
  {
    var keyCount :- c.ReadShortvec();
    var keys :- c.Take(32 * keyCount);
    var _ :- c.Skip(32);
    var count :- c.ReadShortvec();
    var budget :- ReadInstructions(c, count, keys, keyCount);
    return Ok(Scan(budget, count, signatures, versioned));
  }

  method ReadMessage(c: Cursor, signatures: nat) returns (r: Result<Scan, DecodeError>)
    requires c.Valid()
    modifies c
    ensures c.Valid() && Agrees(ParseMessage(old(c.Rest()), signatures), r, c.Rest())
  {
    var first :- c.Byte();
    if first > 128 {
      return Err(Unsupported);
    }
    var _ :- c.Skip(if first == 128 then 3 else 2);
    r := ReadBody(c, signatures, first == 128);
  }

  method ReadLegacy(bytes: Bytes) returns (r: Result<Scan, DecodeError>)
    ensures match ParseLegacy(bytes)
            case Ok((scan, _)) => r == Ok(scan)
            case Err(e) => r == Err(e)
  {
    var c := new Cursor(bytes);
    var signatures :- c.ReadShortvec();
    var _ :- c.Skip(64 * signatures);
    r := ReadMessage(c, signatures);
  }

  // ----- appended bytes

  lemma ParseInstructionExtends(s: Bytes, keyCount: nat, t: Bytes)
    ensures Extends(ParseInstruction(s, keyCount), ParseInstruction(s + t, keyCount), t)
  {
    TakeByteExtends(s, t);
    if TakeByte(s).Ok? && TakeByte(s).value.0 < keyCount {
      var s1 := TakeByte(s).value.1;
      ShortvecFromExtends(s1, 0, 0, t);
      if Shortvec(s1).Ok? {
        var (accountCount, s2) := Shortvec(s1).value;
        TakeBytesExtends(s2, accountCount, t);
        if TakeBytes(s2, accountCount).Ok? {
          var s3 := TakeBytes(s2, accountCount).value.1;
          ShortvecFromExtends(s3, 0, 0, t);
          if Shortvec(s3).Ok? {
            var (dataLen, s4) := Shortvec(s3).value;
            TakeBytesExtends(s4, dataLen, t);
          }
        }
      }
    }
  }

  lemma ParseChargeExtends(s: Bytes, keys: Bytes, keyCount: nat, b: Budget, t: Bytes)
    requires |keys| == 32 * keyCount
    ensures Extends(ParseCharge(s, keys, keyCount, b), ParseCharge(s + t, keys, keyCount, b), t)
  {
    ParseInstructionExtends(s, keyCount, t);
  }

  lemma {:induction false} ParseInstructionsExtends(
      s: Bytes, n: nat, keys: Bytes, keyCount: nat, b: Budget, t: Bytes)
    requires |keys| == 32 * keyCount
    ensures Extends(ParseInstructions(s, n, keys, keyCount, b), ParseInstructions(s + t, n, keys, keyCount, b), t)
    decreases n
  {
    if n > 0 {
      ParseChargeExtends(s, keys, keyCount, b, t);
      if ParseCharge(s, keys, keyCount, b).Ok? {
        var (b', rest) := ParseCharge(s, keys, keyCount, b).value;
        ParseInstructionsExtends(rest, n - 1, keys, keyCount, b', t);
      }
    }
  }

  lemma ParseBodyExtends(s: Bytes, signatures: nat, versioned: bool, t: Bytes)
    ensures Extends(ParseBody(s, signatures, versioned), ParseBody(s + t, signatures, versioned), t)
  {
    ShortvecFromExtends(s, 0, 0, t);
    if Shortvec(s).Ok? {
      var (keyCount, s1) := Shortvec(s).value;
      TakeBytesExtends(s1, 32 * keyCount, t);
      if TakeBytes(s1, 32 * keyCount).Ok? {
        var (keys, s2) := TakeBytes(s1, 32 * keyCount).value;
        TakeBytesExtends(s2, 32, t);
        if TakeBytes(s2, 32).Ok? {
          var s3 := TakeBytes(s2, 32).value.1;
          ShortvecFromExtends(s3, 0, 0, t);
          if Shortvec(s3).Ok? {
            var (count, s4) := Shortvec(s3).value;
            ParseInstructionsExtends(s4, count, keys, keyCount, NO_BUDGET, t);
          }
        }
      }
    }
  }

  lemma ParseLegacyExtends(s: Bytes, t: Bytes)
    ensures Extends(ParseLegacy(s), ParseLegacy(s + t), t)
  {
    ShortvecFromExtends(s, 0, 0, t);
    if Shortvec(s).Ok? {
      var (n, s1) := Shortvec(s).value;
      TakeBytesExtends(s1, 64 * n, t);
      if TakeBytes(s1, 64 * n).Ok? {
        var s2 := TakeBytes(s1, 64 * n).value.1;
        TakeByteExtends(s2, t);
        if TakeByte(s2).Ok? && TakeByte(s2).value.0 <= 128 {
          var (first, s3) := TakeByte(s2).value;
          var skip := if first == 128 then 3 else 2;
          TakeBytesExtends(s3, skip, t);
          if TakeBytes(s3, skip).Ok? {
            ParseBodyExtends(TakeBytes(s3, skip).value.1, n, first == 128, t);
          }
        }
      }
    }
  }
}
