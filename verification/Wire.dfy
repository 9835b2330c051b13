/**
  * The byte-level layer of the transaction decoder (src/tx.rs): the in-bounds cursor,
  * little-endian integers and the compact-u16 ("shortvec") length prefix.
  *
  * Each parser is a function from the unread bytes to a value and the bytes left over.
  * The `Cursor` methods are the imperative code; their contracts tie them to those functions.
  * Bit operations on bytes are written as arithmetic: `b & 0x7f` is `b % 128`,
  * `b & 0x80 != 0` is `b >= 128`, and or-ing disjoint bit ranges is addition.
  */
module Wire {
  import opened Common

  type byte = b: nat | b < 256
  type Bytes = seq<byte>

  datatype DecodeError = Unparsed | Unsupported | InvalidBudget

  /** What a parser yields: a value and the bytes after it, or an error. */
  type Parsed<T> = Result<(T, Bytes), DecodeError>

  // ----- reading bytes

  function TakeBytes(s: Bytes, n: nat): Parsed<Bytes> {
    if n <= |s| then Ok((s[..n], s[n..])) else Err(Unparsed)
  }

  function TakeByte(s: Bytes): Parsed<byte> {
    if s == [] then Err(Unparsed) else Ok((s[0], s[1..]))
  }

  // ----- little-endian integers

  function Pow256(n: nat): (p: nat)
    ensures p > 0
  {
    if n == 0 then 1 else 256 * Pow256(n - 1)
  }

  function FromLE(b: Bytes): (v: nat)
    ensures v < Pow256(|b|)
  {
    if b == [] then 0 else b[0] + 256 * FromLE(b[1..])
  }

  function ToLE(v: nat, n: nat): (b: Bytes)
    ensures |b| == n
  {
    if n == 0 then [] else [v % 256] + ToLE(v / 256, n - 1)
  }

  lemma {:induction false} LittleEndianRoundTrip(v: nat, n: nat)
    requires v < Pow256(n)
    ensures FromLE(ToLE(v, n)) == v
  {
    if n > 0 {
      LittleEndianRoundTrip(v / 256, n - 1);
      assert ToLE(v, n)[1..] == ToLE(v / 256, n - 1);
    }
  }

  /** The widths used on the wire. */
  lemma Widths()
    ensures Pow256(2) == 65536
    ensures Pow256(4) == 0x1_0000_0000
    ensures Pow256(8) == 0x1_0000_0000_0000_0000
  {
    assert Pow256(2) == 256 * Pow256(1);
    assert Pow256(4) == 256 * (256 * Pow256(2));
    assert Pow256(8) == 256 * (256 * (256 * (256 * Pow256(4))));
  }

  // ----- compact-u16

  /** The weight of group `k` of seven bits: `1 << 7k`. */
  function GroupWeight(k: nat): nat {
    if k == 0 then 1 else if k == 1 then 128 else 16384
  }

  /** Reads groups `k`, `k + 1`, ... of a length prefix whose lower groups add up to `value`. */
  function ShortvecFrom(s: Bytes, k: nat, value: nat): Parsed<nat>
    decreases 3 - k
  {
    if k >= 3 || s == [] then Err(Unparsed)
    else if k == 2 && s[0] > 3 then Err(Unparsed)
    else
      var value' := value + s[0] % 128 * GroupWeight(k);
      if s[0] >= 128 then ShortvecFrom(s[1..], k + 1, value')
      else if k > 0 && s[0] == 0 then Err(Unparsed)
      else Ok((value', s[1..]))
  }

  function Shortvec(s: Bytes): Parsed<nat> {
    ShortvecFrom(s, 0, 0)
  }

  /** The canonical encoding: as few seven-bit groups as possible. */
  function EncodeShortvec(v: nat): (s: Bytes)
    requires v < 65536
    ensures 1 <= |s| <= 3
  {
    if v < 128 then [v]
    else if v < 16384 then [v % 128 + 128, v / 128]
    else [v % 128 + 128, v / 128 % 128 + 128, v / 16384]
  }

  lemma ShortvecTwoGroups(low: nat, high: nat, rest: Bytes)
    requires low < 128 && 1 <= high < 128
    ensures Shortvec([low + 128, high] + rest) == Ok((low + high * 128, rest))
  {
    var s := [low + 128, high] + rest;
    assert s[1..] == [high] + rest && s[1..][1..] == rest;
    assert ShortvecFrom(s[1..], 1, low) == Ok((low + high * 128, rest));
  }

  lemma ShortvecThreeGroups(low: nat, mid: nat, high: nat, rest: Bytes)
    requires low < 128 && mid < 128 && 1 <= high <= 3
    ensures Shortvec([low + 128, mid + 128, high] + rest) == Ok((low + mid * 128 + high * 16384, rest))
  {
    var s := [low + 128, mid + 128, high] + rest;
    var t, u := [mid + 128, high] + rest, [high] + rest;
    assert s[1..] == t && t[1..] == u && u[1..] == rest;
    assert ShortvecFrom(u, 2, low + mid * 128) == Ok((low + mid * 128 + high * 16384, rest));
    assert ShortvecFrom(t, 1, low) == ShortvecFrom(u, 2, low + mid * 128);
  }

  lemma ShortvecRoundTrip(v: nat, rest: Bytes)
    requires v < 65536
    ensures Shortvec(EncodeShortvec(v) + rest) == Ok((v, rest))
  {
    var low, high := v % 128, v / 128;
    if v < 128 {
      assert ([v] + rest)[1..] == rest;
    } else if v < 16384 {
      ShortvecTwoGroups(low, high, rest);
    } else {
      assert v / 16384 == high / 128;
      ShortvecThreeGroups(low, high % 128, high / 128, rest);
    }
  }

  lemma EncodeTwoGroups(low: nat, high: nat)
    requires low < 128 && 1 <= high < 128
    ensures EncodeShortvec(low + high * 128) == [low + 128, high]
  {
    var v := low + high * 128;
    assert v / 128 == high && v % 128 == low;
  }

  lemma EncodeThreeGroups(low: nat, mid: nat, high: nat)
    requires low < 128 && mid < 128 && 1 <= high <= 3
    ensures low + mid * 128 + high * 16384 < 65536
    ensures EncodeShortvec(low + mid * 128 + high * 16384) == [low + 128, mid + 128, high]
  {
    var v := low + mid * 128 + high * 16384;
    var upper := mid + high * 128;
    assert v == low + upper * 128;
    assert v / 128 == upper && v % 128 == low;
    assert upper % 128 == mid && v / 16384 == high;
  }

  /** What an accepted prefix looks like. */
  lemma ShortvecShape(s: Bytes)
    requires Shortvec(s).Ok?
    ensures s != []
    ensures s[0] >= 128 ==> |s| >= 2 && s[1] >= 1
    ensures s[0] >= 128 && s[1] >= 128 ==> |s| >= 3 && 1 <= s[2] <= 3
  {
    if s[0] >= 128 {
      var t := s[1..];
      assert ShortvecFrom(t, 1, s[0] % 128).Ok? && t[0] == s[1];
      if t[0] >= 128 {
        assert t[1..][0] == s[2];
      }
    }
  }

  /**
    * Exactly one byte string is accepted per value in 0..65535: whatever is accepted is
    * the canonical encoding of the value returned.
    */
  lemma ShortvecCanonical(s: Bytes)
    requires Shortvec(s).Ok?
    ensures Shortvec(s).value.0 < 65536
    ensures s == EncodeShortvec(Shortvec(s).value.0) + Shortvec(s).value.1
  {
    ShortvecShape(s);
    if s[0] < 128 {
      assert s == [s[0]] + s[1..];
    } else if s[1] < 128 {
      assert s == [s[0], s[1]] + s[2..];
      ShortvecTwoGroups(s[0] - 128, s[1], s[2..]);
      EncodeTwoGroups(s[0] - 128, s[1]);
    } else {
      assert s == [s[0], s[1], s[2]] + s[3..];
      ShortvecThreeGroups(s[0] - 128, s[1] - 128, s[2], s[3..]);
      EncodeThreeGroups(s[0] - 128, s[1] - 128, s[2]);
    }
  }

  // ----- arrays of fixed-width items

  ghost predicate AllOfWidth(items: seq<Bytes>, w: nat) {
    forall item | item in items :: |item| == w
  }

  function Flatten(items: seq<Bytes>): Bytes {
    if items == [] then [] else items[0] + Flatten(items[1..])
  }

  lemma {:induction false} FlattenLength(items: seq<Bytes>, w: nat)
    requires AllOfWidth(items, w) && (w == 32 || w == 64)
    ensures |Flatten(items)| == w * |items|
  {
    if items != [] {
      FlattenLength(items[1..], w);
    }
  }

  lemma {:induction false} FlattenSlice(items: seq<Bytes>, i: nat)
    requires AllOfWidth(items, 32) && i < |items|
    ensures 32 * i + 32 <= |Flatten(items)|
    ensures Flatten(items)[32 * i..32 * i + 32] == items[i]
  {
    FlattenLength(items, 32);
    if i > 0 {
      FlattenSlice(items[1..], i - 1);
      assert Flatten(items)[32 * i..32 * i + 32] == Flatten(items[1..])[32 * (i - 1)..32 * (i - 1) + 32];
    }
  }

  lemma TakePrefix(a: Bytes, b: Bytes)
    ensures TakeBytes(a + b, |a|) == Ok((a, b))
  {
    assert (a + b)[..|a|] == a && (a + b)[|a|..] == b;
  }

  // ----- appended bytes never change what was read

  /** `longer` is what `shorter` becomes once `t` is appended to the input. */
  ghost predicate Extends<T(!new)>(shorter: Parsed<T>, longer: Parsed<T>, t: Bytes) {
    match shorter
    case Ok((v, rest)) => longer == Ok((v, rest + t))
    case Err(Unparsed) => true
    case Err(e) => longer == Err(e)
  }

  lemma TakeBytesExtends(s: Bytes, n: nat, t: Bytes)
    ensures Extends(TakeBytes(s, n), TakeBytes(s + t, n), t)
  {
    if n <= |s| {
      assert (s + t)[..n] == s[..n];
      assert (s + t)[n..] == s[n..] + t;
    }
  }

  lemma TakeByteExtends(s: Bytes, t: Bytes)
    ensures Extends(TakeByte(s), TakeByte(s + t), t)
  {
    if s != [] {
      assert (s + t)[1..] == s[1..] + t;
    }
  }

  lemma {:induction false} ShortvecFromExtends(s: Bytes, k: nat, value: nat, t: Bytes)
    ensures Extends(ShortvecFrom(s, k, value), ShortvecFrom(s + t, k, value), t)
    decreases 3 - k
  {
    if k < 3 && s != [] {
      assert (s + t)[0] == s[0];
      assert (s + t)[1..] == s[1..] + t;
      ShortvecFromExtends(s[1..], k + 1, value + s[0] % 128 * GroupWeight(k), t);
    }
  }

  // ----- the cursor

  /** `r` and the unread bytes `rest` are what the parser `spec` yields. */
  ghost predicate Agrees<T(!new)>(spec: Parsed<T>, r: Result<T, DecodeError>, rest: Bytes) {
    match spec
    case Ok((v, tail)) => r == Ok(v) && rest == tail
    case Err(e) => r == Err(e)
  }

  class Cursor {
    const bytes: Bytes
    var pos: nat

    /** The cursor never leaves the buffer. */
    ghost predicate Valid()
      reads this
    {
      pos <= |bytes|
    }

    ghost function Rest(): Bytes
      requires Valid()
      reads this
    {
      bytes[pos..]
    }

    constructor (bytes: Bytes)
      ensures Valid() && this.bytes == bytes && Rest() == bytes
    {
      this.bytes := bytes;
      pos := 0;
    }

    method Take(len: nat) returns (r: Result<Bytes, DecodeError>)
      requires Valid()
      modifies this
      ensures Valid() && Agrees(TakeBytes(old(Rest()), len), r, Rest())
    {
      var end := pos + len;
      if end > |bytes| {
        return Err(Unparsed);
      }
      r := Ok(bytes[pos..end]);
      assert bytes[pos..][..len] == bytes[pos..end];
      assert bytes[pos..][len..] == bytes[end..];
      pos := end;
    }

    method Byte() returns (r: Result<byte, DecodeError>)
      requires Valid()
      modifies this
      ensures Valid() && Agrees(TakeByte(old(Rest())), r, Rest())
    {
      var b :- Take(1);
      r := Ok(b[0]);
    }

    method Skip(len: nat) returns (r: Result<(), DecodeError>)
      requires Valid()
      modifies this
      ensures Valid()
      ensures r.Ok? <==> TakeBytes(old(Rest()), len).Ok?
      ensures r.Ok? ==> Rest() == old(Rest())[len..]
      ensures r.Err? ==> r.error == Unparsed
    {
      var _ :- Take(len);
      r := Ok(());
    }

    method Remaining() returns (n: nat)
      requires Valid()
      ensures n == |Rest()|
    {
      n := |bytes| - pos;
    }

    method ReadShortvec() returns (r: Result<nat, DecodeError>)
      requires Valid()
      modifies this
      ensures Valid() && Agrees(Shortvec(old(Rest())), r, Rest())
    {
      var value: nat, k: nat := 0, 0;
      while k < 3
        invariant 0 <= k <= 3 && Valid()
        invariant Shortvec(old(Rest())) == ShortvecFrom(Rest(), k, value)
      {
        var b :- Byte();
        if k == 2 && b > 3 {
          return Err(Unparsed);
        }
        value := value + b % 128 * GroupWeight(k);
        if b < 128 {
          return if k > 0 && b == 0 then Err(Unparsed) else Ok(value);
        }
        k := k + 1;
      }
      return Err(Unparsed);
    }
  }
}
