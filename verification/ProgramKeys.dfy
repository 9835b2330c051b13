/**
  * The program ids of src/tx.rs as the byte strings they are on the wire: the numbers that module
  * `Legacy` compares stand for exactly these keys.
  */
module ProgramKeys {
  import opened Wire
  import opened Legacy

  /** Four bytes, the first one first. */
  function Word(w: nat): (b: Bytes)
    requires w < 0x1_0000_0000
    ensures |b| == 4
  {
    [w / 0x100_0000, w / 0x1_0000 % 256, w / 256 % 256, w % 256]
  }

  /** The 32-byte key whose hexadecimal digits are these. */
  function Key(a: nat, b: nat, c: nat, d: nat, e: nat, f: nat, g: nat, h: nat): (key: Bytes)
    requires a < 0x1_0000_0000 && b < 0x1_0000_0000 && c < 0x1_0000_0000 && d < 0x1_0000_0000
    requires e < 0x1_0000_0000 && f < 0x1_0000_0000 && g < 0x1_0000_0000 && h < 0x1_0000_0000
    ensures |key| == 32
  {
    Word(a) + Word(b) + Word(c) + Word(d) + Word(e) + Word(f) + Word(g) + Word(h)
  }

  function SystemKey(): (key: Bytes)
    ensures |key| == 32
  {
    Key(0x00000000, 0x00000000, 0x00000000, 0x00000000, 0x00000000, 0x00000000, 0x00000000, 0x00000000)
  }

  function ComputeBudgetKey(): (key: Bytes)
    ensures |key| == 32
  {
    Key(0x0306466F, 0xE5211732, 0xFFECADBA, 0x72C39BE7, 0xBC8CE5BB, 0xC5F7126B, 0x2C439B3A, 0x40000000)
  }

  function UpgradeableLoaderKey(): (key: Bytes)
    ensures |key| == 32
  {
    Key(0x02A8F691, 0x4E88A1B0, 0xE210153E, 0xF763AE2B, 0x00C2B93D, 0x16C124D2, 0xC0537A10, 0x04800000)
  }

  function DeprecatedLoaderKey(): (key: Bytes)
    ensures |key| == 32
  {
    Key(0x02A8F691, 0x4E88A16B, 0xBD239585, 0x5F6404D9, 0xB4F456B7, 0x821BB014, 0x5749428C, 0x00000000)
  }

  function LoaderKey(): (key: Bytes)
    ensures |key| == 32
  {
    Key(0x02A8F691, 0x4E88A16E, 0x395AE128, 0x948FFA69, 0x56933768, 0x18DD4743, 0x5221F3C6, 0x00000000)
  }

  function LoaderV4Key(): (key: Bytes)
    ensures |key| == 32
  {
    Key(0x0512B411, 0x5151E37A, 0xAD0A8BC5, 0xD3882E7B, 0x7FDA4CF3, 0xD2C028C8, 0xCF833618, 0x00000000)
  }

  function Secp256k1Key(): (key: Bytes)
    ensures |key| == 32
  {
    Key(0x04C6FC20, 0xF050CCF0, 0x5584D721, 0x1C9F8CF5, 0x9EC14785, 0xBB166A1E, 0x2830E812, 0x20000000)
  }

  function Ed25519Key(): (key: Bytes)
    ensures |key| == 32
  {
    Key(0x037D46D6, 0x7C93FBBE, 0x12F9428F, 0x838D40FF, 0x05707449, 0x27F48A64, 0xFCCA7044, 0x80000000)
  }

  /** The programs that get the small default allotment. */
  ghost predicate IsBuiltin(key: Bytes) {
    IsNative(key) || IsLoader(key)
  }

  ghost predicate IsNative(key: Bytes) {
    key == SystemKey() || key == ComputeBudgetKey() || key == Secp256k1Key() || key == Ed25519Key()
  }

  ghost predicate IsLoader(key: Bytes) {
    key == UpgradeableLoaderKey() || key == DeprecatedLoaderKey() || key == LoaderKey() || key == LoaderV4Key()
  }

  // ----- the numbers of these keys

  lemma PushByte(key: Bytes, b: byte)
    ensures ProgramId(key + [b]) == 256 * ProgramId(key) + b
  {
    assert (key + [b])[..|key|] == key;
  }

  lemma PushBytes(key: Bytes, a: byte, b: byte, c: byte, d: byte)
    ensures ProgramId(key + [a, b, c, d])
         == 256 * (256 * (256 * (256 * ProgramId(key) + a) + b) + c) + d
  {
    PushByte(key, a);
    PushByte(key + [a], b);
    PushByte(key + [a] + [b], c);
    PushByte(key + [a] + [b] + [c], d);
    assert key + [a] + [b] + [c] + [d] == key + [a, b, c, d];
  }

  lemma WordDigits(w: nat)
    requires w < 0x1_0000_0000
    ensures 256 * (256 * (256 * (w / 0x100_0000) + w / 0x1_0000 % 256) + w / 256 % 256) + w % 256 == w
  {
  }

  lemma PushWord(key: Bytes, w: nat)
    requires w < 0x1_0000_0000
    ensures ProgramId(key + Word(w)) == 0x1_0000_0000 * ProgramId(key) + w
  {
    PushBytes(key, w / 0x100_0000, w / 0x1_0000 % 256, w / 256 % 256, w % 256);
    WordDigits(w);
  }

  lemma HalfNumber(key: Bytes, a: nat, b: nat, c: nat, d: nat)
    requires a < 0x1_0000_0000 && b < 0x1_0000_0000 && c < 0x1_0000_0000 && d < 0x1_0000_0000
    ensures ProgramId(key + Word(a) + Word(b) + Word(c) + Word(d))
         == 0x1_0000_0000 * (0x1_0000_0000 * (0x1_0000_0000 * (0x1_0000_0000 * ProgramId(key) + a) + b) + c) + d
  {
    PushWord(key, a);
    PushWord(key + Word(a), b);
    PushWord(key + Word(a) + Word(b), c);
    PushWord(key + Word(a) + Word(b) + Word(c), d);
  }

  /** The number of a key, from its two halves. */
  lemma KeyNumber(a: nat, b: nat, c: nat, d: nat, e: nat, f: nat, g: nat, h: nat, high: nat, low: nat)
    requires a < 0x1_0000_0000 && b < 0x1_0000_0000 && c < 0x1_0000_0000 && d < 0x1_0000_0000
    requires e < 0x1_0000_0000 && f < 0x1_0000_0000 && g < 0x1_0000_0000 && h < 0x1_0000_0000
    requires high == 0x1_0000_0000 * (0x1_0000_0000 * (0x1_0000_0000 * a + b) + c) + d
    requires low == 0x1_0000_0000 * (0x1_0000_0000 * (0x1_0000_0000 * e + f) + g) + h
    ensures ProgramId(Key(a, b, c, d, e, f, g, h)) == 0x1_0000_0000_0000_0000_0000_0000_0000_0000 * high + low
  {
    HalfNumber([], a, b, c, d);
    assert [] + Word(a) == Word(a);
    HalfNumber(Word(a) + Word(b) + Word(c) + Word(d), e, f, g, h);
  }

  /** Equal numbers mean equal keys. */
  lemma SameNumberSameKey(key: Bytes, other: Bytes, id: nat)
    requires |key| == 32 && |other| == 32 && ProgramId(other) == id
    ensures ProgramId(key) == id <==> key == other
  {
    if ProgramId(key) == id {
      ProgramIdInjective(key, other);
    }
  }

  lemma SystemKeyMeans(key: Bytes)
    requires |key| == 32
    ensures ProgramId(key) == 0
       <==> key == SystemKey()
  {
    KeyNumber(0x00000000, 0x00000000, 0x00000000, 0x00000000,
              0x00000000, 0x00000000, 0x00000000, 0x00000000,
              0x00000000_00000000_00000000_00000000, 0x00000000_00000000_00000000_00000000);
    SameNumberSameKey(key, SystemKey(),
                      0);
  }

  lemma ComputeBudgetKeyMeans(key: Bytes)
    requires |key| == 32
    ensures ProgramId(key) == 0x0306466F_E5211732_FFECADBA_72C39BE7_BC8CE5BB_C5F7126B_2C439B3A_40000000
       <==> key == ComputeBudgetKey()
  {
    KeyNumber(0x0306466F, 0xE5211732, 0xFFECADBA, 0x72C39BE7,
              0xBC8CE5BB, 0xC5F7126B, 0x2C439B3A, 0x40000000,
              0x0306466F_E5211732_FFECADBA_72C39BE7, 0xBC8CE5BB_C5F7126B_2C439B3A_40000000);
    SameNumberSameKey(key, ComputeBudgetKey(),
                      0x0306466F_E5211732_FFECADBA_72C39BE7_BC8CE5BB_C5F7126B_2C439B3A_40000000);
  }

  lemma UpgradeableLoaderKeyMeans(key: Bytes)
    requires |key| == 32
    ensures ProgramId(key) == 0x02A8F691_4E88A1B0_E210153E_F763AE2B_00C2B93D_16C124D2_C0537A10_04800000
       <==> key == UpgradeableLoaderKey()
  {
    KeyNumber(0x02A8F691, 0x4E88A1B0, 0xE210153E, 0xF763AE2B,
              0x00C2B93D, 0x16C124D2, 0xC0537A10, 0x04800000,
              0x02A8F691_4E88A1B0_E210153E_F763AE2B, 0x00C2B93D_16C124D2_C0537A10_04800000);
    SameNumberSameKey(key, UpgradeableLoaderKey(),
                      0x02A8F691_4E88A1B0_E210153E_F763AE2B_00C2B93D_16C124D2_C0537A10_04800000);
  }

  lemma DeprecatedLoaderKeyMeans(key: Bytes)
    requires |key| == 32
    ensures ProgramId(key) == 0x02A8F691_4E88A16B_BD239585_5F6404D9_B4F456B7_821BB014_5749428C_00000000
       <==> key == DeprecatedLoaderKey()
  {
    KeyNumber(0x02A8F691, 0x4E88A16B, 0xBD239585, 0x5F6404D9,
              0xB4F456B7, 0x821BB014, 0x5749428C, 0x00000000,
              0x02A8F691_4E88A16B_BD239585_5F6404D9, 0xB4F456B7_821BB014_5749428C_00000000);
    SameNumberSameKey(key, DeprecatedLoaderKey(),
                      0x02A8F691_4E88A16B_BD239585_5F6404D9_B4F456B7_821BB014_5749428C_00000000);
  }

  lemma LoaderKeyMeans(key: Bytes)
    requires |key| == 32
    ensures ProgramId(key) == 0x02A8F691_4E88A16E_395AE128_948FFA69_56933768_18DD4743_5221F3C6_00000000
       <==> key == LoaderKey()
  {
    KeyNumber(0x02A8F691, 0x4E88A16E, 0x395AE128, 0x948FFA69,
              0x56933768, 0x18DD4743, 0x5221F3C6, 0x00000000,
              0x02A8F691_4E88A16E_395AE128_948FFA69, 0x56933768_18DD4743_5221F3C6_00000000);
    SameNumberSameKey(key, LoaderKey(),
                      0x02A8F691_4E88A16E_395AE128_948FFA69_56933768_18DD4743_5221F3C6_00000000);
  }

  lemma LoaderV4KeyMeans(key: Bytes)
    requires |key| == 32
    ensures ProgramId(key) == 0x0512B411_5151E37A_AD0A8BC5_D3882E7B_7FDA4CF3_D2C028C8_CF833618_00000000
       <==> key == LoaderV4Key()
  {
    KeyNumber(0x0512B411, 0x5151E37A, 0xAD0A8BC5, 0xD3882E7B,
              0x7FDA4CF3, 0xD2C028C8, 0xCF833618, 0x00000000,
              0x0512B411_5151E37A_AD0A8BC5_D3882E7B, 0x7FDA4CF3_D2C028C8_CF833618_00000000);
    SameNumberSameKey(key, LoaderV4Key(),
                      0x0512B411_5151E37A_AD0A8BC5_D3882E7B_7FDA4CF3_D2C028C8_CF833618_00000000);
  }

  lemma Secp256k1KeyMeans(key: Bytes)
    requires |key| == 32
    ensures ProgramId(key) == 0x04C6FC20_F050CCF0_5584D721_1C9F8CF5_9EC14785_BB166A1E_2830E812_20000000
       <==> key == Secp256k1Key()
  {
    KeyNumber(0x04C6FC20, 0xF050CCF0, 0x5584D721, 0x1C9F8CF5,
              0x9EC14785, 0xBB166A1E, 0x2830E812, 0x20000000,
              0x04C6FC20_F050CCF0_5584D721_1C9F8CF5, 0x9EC14785_BB166A1E_2830E812_20000000);
    SameNumberSameKey(key, Secp256k1Key(),
                      0x04C6FC20_F050CCF0_5584D721_1C9F8CF5_9EC14785_BB166A1E_2830E812_20000000);
  }

  lemma Ed25519KeyMeans(key: Bytes)
    requires |key| == 32
    ensures ProgramId(key) == 0x037D46D6_7C93FBBE_12F9428F_838D40FF_05707449_27F48A64_FCCA7044_80000000
       <==> key == Ed25519Key()
  {
    KeyNumber(0x037D46D6, 0x7C93FBBE, 0x12F9428F, 0x838D40FF,
              0x05707449, 0x27F48A64, 0xFCCA7044, 0x80000000,
              0x037D46D6_7C93FBBE_12F9428F_838D40FF, 0x05707449_27F48A64_FCCA7044_80000000);
    SameNumberSameKey(key, Ed25519Key(),
                      0x037D46D6_7C93FBBE_12F9428F_838D40FF_05707449_27F48A64_FCCA7044_80000000);
  }

  ghost predicate NativeId(id: nat) {
    || id == 0
    || id == 0x0306466F_E5211732_FFECADBA_72C39BE7_BC8CE5BB_C5F7126B_2C439B3A_40000000
    || id == 0x04C6FC20_F050CCF0_5584D721_1C9F8CF5_9EC14785_BB166A1E_2830E812_20000000
    || id == 0x037D46D6_7C93FBBE_12F9428F_838D40FF_05707449_27F48A64_FCCA7044_80000000
  }

  lemma NativeMeans(key: Bytes)
    requires |key| == 32
    ensures IsNative(key) <==> NativeId(ProgramId(key))
  {
    SystemKeyMeans(key);
    ComputeBudgetKeyMeans(key);
    Secp256k1KeyMeans(key);
    Ed25519KeyMeans(key);
  }

  ghost predicate LoaderId(id: nat) {
    || id == 0x02A8F691_4E88A1B0_E210153E_F763AE2B_00C2B93D_16C124D2_C0537A10_04800000
    || id == 0x02A8F691_4E88A16B_BD239585_5F6404D9_B4F456B7_821BB014_5749428C_00000000
    || id == 0x02A8F691_4E88A16E_395AE128_948FFA69_56933768_18DD4743_5221F3C6_00000000
    || id == 0x0512B411_5151E37A_AD0A8BC5_D3882E7B_7FDA4CF3_D2C028C8_CF833618_00000000
  }

  lemma LoaderMeans(key: Bytes)
    requires |key| == 32
    ensures IsLoader(key) <==> LoaderId(ProgramId(key))
  {
    UpgradeableLoaderKeyMeans(key);
    DeprecatedLoaderKeyMeans(key);
    LoaderKeyMeans(key);
    LoaderV4KeyMeans(key);
  }

  lemma BuiltinIds(id: nat)
    ensures id in BUILTIN_PROGRAM_IDS <==> NativeId(id) || LoaderId(id)
  {
  }

  /** A 32-byte key is that of a builtin program exactly when its number is in the set the decoder looks in. */
  lemma BuiltinMeans(key: Bytes)
    requires |key| == 32
    ensures ProgramId(key) in BUILTIN_PROGRAM_IDS <==> IsBuiltin(key)
  {
    BuiltinIds(ProgramId(key));
    NativeMeans(key);
    LoaderMeans(key);
  }

  lemma BudgetMeans(key: Bytes)
    requires |key| == 32
    ensures ProgramId(key) == COMPUTE_BUDGET_ID <==> key == ComputeBudgetKey()
  {
    ComputeBudgetKeyMeans(key);
  }
}
