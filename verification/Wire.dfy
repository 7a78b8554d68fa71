/** The wire primitives of the Protocol Buffers encoding: base-128 varints, fixed-width and
    length-delimited payloads, and skipping a field of any wire type. A reader's position is
    represented by the bytes that are left. */
module Wire {
  import opened Common

  type Byte = b: int | 0 <= b < 256
  type Bytes = seq<Byte>

  /** A double is opaque: its eight bytes. */
  type Double = b: Bytes | |b| == 8 witness [0, 0, 0, 0, 0, 0, 0, 0]

  datatype DecodeError = RecursionLimit | Truncated | InvalidVarint | InvalidWireType | UnsafeInteger

  datatype Read<+T> = Ok(value: T, rest: Bytes) | Err(error: DecodeError)

  const MAX_VARINT_BYTES := 10
  const TWO_32 := 0x1_0000_0000
  const TWO_64 := 0x1_0000_0000_0000_0000

  // ---------------------------------------------------------------- varints

  function EncodeVarint(n: nat): (bytes: Bytes)
    ensures |bytes| > 0
  {
    if n < 128 then [n] else [n % 128 + 128] + EncodeVarint(n / 128)
  }

  /** Reads at most `budget` bytes, least significant group first. */
  function ReadVarint(s: Bytes, budget: nat): (r: Read<nat>)
    ensures r.Ok? ==> |r.rest| < |s|
  {
    if budget == 0 then Err(InvalidVarint)
    else if s == [] then Err(Truncated)
    else if s[0] < 128 then Ok(s[0], s[1..])
    else match ReadVarint(s[1..], budget - 1)
      case Ok(n, rest) => Ok(s[0] - 128 + 128 * n, rest)
      case Err(e) => Err(e)
  }

  /** The low 32 bits of a varint: tags and lengths. */
  function ReadUInt32(s: Bytes): (r: Read<nat>)
    ensures r.Ok? ==> |r.rest| < |s| && r.value < TWO_32
  {
    match ReadVarint(s, MAX_VARINT_BYTES)
    case Ok(n, rest) => Ok(n % TWO_32, rest)
    case Err(e) => Err(e)
  }

  predicate IsInt32(v: int) { -0x8000_0000 <= v < 0x8000_0000 }

  predicate IsInt64(v: int) { -0x8000_0000_0000_0000 <= v < 0x8000_0000_0000_0000 }

  /** Negative integers are sign-extended to 64 bits before they are written. */
  function EncodeInt(v: int): Bytes
    requires IsInt64(v)
  {
    EncodeVarint(Unsigned(v))
  }

  function ToInt32(n: nat): int {
    var low := n % TWO_32;
    if low >= 0x8000_0000 then low - TWO_32 else low
  }

  function ToInt64(n: nat): int {
    var low := n % TWO_64;
    if low >= 0x8000_0000_0000_0000 then low - TWO_64 else low
  }

  /** The largest number `k` base-128 digits can hold, plus one. */
  function Pow128(k: nat): (p: nat)
    ensures p > 0
  {
    if k == 0 then 1 else 128 * Pow128(k - 1)
  }

  lemma {:induction false} VarintRoundTrip(n: nat, rest: Bytes, budget: nat)
    requires budget > 0 && n < Pow128(budget)
    ensures ReadVarint(EncodeVarint(n) + rest, budget) == Ok(n, rest)
  {
    var s := EncodeVarint(n) + rest;
    if n < 128 {
      assert s[1..] == rest;
    } else {
      assert s[1..] == EncodeVarint(n / 128) + rest;
      VarintRoundTrip(n / 128, rest, budget - 1);
    }
  }

  /** What the bytes of a varint are: the base-128 digits of the number, least significant first, every
      byte but the last with its high bit set, and no more bytes than the number needs. */
  lemma {:induction false} VarintDigits(n: nat, k: nat)
    requires k < |EncodeVarint(n)|
    ensures EncodeVarint(n)[k] % 128 == n / Pow128(k) % 128
    ensures EncodeVarint(n)[k] >= 128 <==> k < |EncodeVarint(n)| - 1
    ensures n < Pow128(|EncodeVarint(n)|) && (|EncodeVarint(n)| > 1 ==> Pow128(|EncodeVarint(n)| - 1) <= n)
  {
    if n >= 128 {
      VarintDigits(n / 128, if k == 0 then 0 else k - 1);
      assert n == 128 * (n / 128) + n % 128;
      if k > 0 { DivideTwice(n, Pow128(k - 1)); }
    }
  }

  lemma DivideTwice(n: nat, m: nat)
    requires m > 0
    ensures n / 128 / m == n / (128 * m)
  {
    var q, r := n / 128 / m, n / 128 % m;
    assert n / 128 == m * q + r;
    assert n == 128 * (m * q + r) + n % 128;
    assert n == (128 * m) * q + (128 * r + n % 128);
    QuotientIs(n, 128 * m, q, 128 * r + n % 128);
  }

  lemma VarintRange()
    ensures Pow128(MAX_VARINT_BYTES) == 0x40_0000_0000_0000_0000
  {
    assert Pow128(2) == 0x4000;
    assert Pow128(4) == 0x1000_0000;
    assert Pow128(6) == 0x400_0000_0000;
    assert Pow128(8) == 0x100_0000_0000_0000;
  }

  lemma UInt32RoundTrip(n: nat, rest: Bytes)
    requires n < TWO_32
    ensures ReadUInt32(EncodeVarint(n) + rest) == Ok(n, rest)
  {
    VarintRange();
    VarintRoundTrip(n, rest, MAX_VARINT_BYTES);
  }

  /** Tags and lengths are the number modulo 2^32, integers the number in two's complement. */
  lemma {:induction false} LowBits(n: nat, rest: Bytes)
    requires n < TWO_64
    ensures ReadUInt32(EncodeVarint(n) + rest) == Ok(n % 0x1_0000_0000, rest)
    ensures -0x8000_0000 <= ToInt32(n) < 0x8000_0000 && (n - ToInt32(n)) % 0x1_0000_0000 == 0
    ensures -0x8000_0000_0000_0000 <= ToInt64(n) < 0x8000_0000_0000_0000
    ensures (n - ToInt64(n)) % 0x1_0000_0000_0000_0000 == 0
  {
    VarintRange();
    VarintRoundTrip(n, rest, MAX_VARINT_BYTES);
  }

  /** A varint has at most ten bytes, and one that is cut off is refused. */
  lemma {:induction false} BadVarint(s: Bytes, budget: nat)
    requires forall k :: 0 <= k < |s| && k < budget ==> s[k] >= 128
    ensures ReadVarint(s, budget) == Err(if |s| < budget then Truncated else InvalidVarint)
  {
    if budget > 0 && s != [] {
      BadVarint(s[1..], budget - 1);
    }
  }

  /** The unsigned value a signed integer is written as. */
  function Unsigned(v: int): nat
    requires IsInt64(v)
  {
    if v < 0 then v + TWO_64 else v
  }

  lemma {:induction false} SignRestored(v: int)
    requires IsInt64(v)
    ensures ToInt64(Unsigned(v)) == v
    ensures IsInt32(v) ==> ToInt32(Unsigned(v)) == v
  {
    if IsInt32(v) && v < 0 {
      var n := v + TWO_64;
      assert n == 0xFFFF_FFFF * TWO_32 + (v + TWO_32);
      assert n / TWO_32 == 0xFFFF_FFFF;
    }
  }

  /** Signed integers survive sign extension and truncation, negative ones included. */
  lemma {:induction false} IntRoundTrip(v: int, rest: Bytes)
    requires IsInt64(v)
    ensures var r := ReadVarint(EncodeInt(v) + rest, MAX_VARINT_BYTES);
      r.Ok? && r.rest == rest && ToInt64(r.value) == v && (IsInt32(v) ==> ToInt32(r.value) == v)
  {
    hide ReadVarint, EncodeVarint, Pow128, ToInt32, ToInt64;
    VarintRange();
    VarintRoundTrip(Unsigned(v), rest, MAX_VARINT_BYTES);
    SignRestored(v);
  }

  // ---------------------------------------------------------------- payloads

  function Take(s: Bytes, n: nat): (r: Read<Bytes>)
    ensures r.Ok? ==> |r.value| == n && |r.rest| == |s| - n
  {
    if n <= |s| then Ok(s[..n], s[n..]) else Err(Truncated)
  }

  function ReadBytes(s: Bytes): (r: Read<Bytes>)
    ensures r.Ok? ==> |r.rest| < |s|
  {
    match ReadUInt32(s)
    case Ok(len, s1) => Take(s1, len)
    case Err(e) => Err(e)
  }

  /** A length-delimited payload. */
  function Delimited(payload: Bytes): Bytes {
    EncodeVarint(|payload|) + payload
  }

  lemma DelimitedRoundTrip(payload: Bytes, rest: Bytes)
    requires |payload| < TWO_32
    ensures ReadUInt32(Delimited(payload) + rest) == Ok(|payload|, payload + rest)
    ensures ReadBytes(Delimited(payload) + rest) == Ok(payload, rest)
  {
    assert Delimited(payload) + rest == EncodeVarint(|payload|) + (payload + rest);
    UInt32RoundTrip(|payload|, payload + rest);
    assert (payload + rest)[..|payload|] == payload && (payload + rest)[|payload|..] == rest;
  }

  /** Skips the payload of a field by its wire type; a group is skipped record by record up to
      its end tag. */
  function Skip(s: Bytes, wireType: nat): (r: Read<Bytes>)
    ensures r.Ok? ==> |r.rest| < |s|
    decreases |s|, 1
  {
    match wireType
    case 0 => (match ReadVarint(s, MAX_VARINT_BYTES) case Ok(_, rest) => Ok([], rest) case Err(e) => Err(e))
    case 1 => Take(s, 8)
    case 2 => ReadBytes(s)
    case 3 => SkipGroup(s)
    case 5 => Take(s, 4)
    case _ => Err(InvalidWireType)
  }

  function SkipGroup(s: Bytes): (r: Read<Bytes>)
    ensures r.Ok? ==> |r.rest| < |s|
    decreases |s|, 0
  {
    match ReadUInt32(s)
    case Err(e) => Err(e)
    case Ok(tag, s1) =>
      if tag % 8 == 4 then Ok([], s1)
      else match Skip(s1, tag % 8)
        case Err(e) => Err(e)
        case Ok(_, s2) => SkipGroup(s2)
  }

  /** A payload that is cut off is refused, and so is a wire type that does not exist or stands alone. */
  lemma {:induction false} BadPayload(s: Bytes, len: nat, wireType: nat)
    requires len < TWO_32
    ensures |s| < len ==> ReadBytes(EncodeVarint(len) + s) == Err(Truncated)
    ensures |s| < 8 ==> Skip(s, 1) == Err(Truncated)
    ensures |s| < 4 ==> Skip(s, 5) == Err(Truncated)
    ensures wireType == 4 || wireType > 5 ==> Skip(s, wireType) == Err(InvalidWireType)
  {
    UInt32RoundTrip(len, s);
  }

  // ---------------------------------------------------------------- locality

  /** What a successful read does not consume it does not look at. */
  lemma {:induction false} ReadVarintLocal(s: Bytes, t: Bytes, budget: nat)
    requires ReadVarint(s, budget).Ok?
    ensures var r := ReadVarint(s, budget); ReadVarint(s + t, budget) == Ok(r.value, r.rest + t)
  {
    assert (s + t)[1..] == s[1..] + t;
    if s[0] >= 128 {
      ReadVarintLocal(s[1..], t, budget - 1);
    }
  }

  lemma ReadUInt32Local(s: Bytes, t: Bytes)
    requires ReadUInt32(s).Ok?
    ensures var r := ReadUInt32(s); ReadUInt32(s + t) == Ok(r.value, r.rest + t)
  {
    ReadVarintLocal(s, t, MAX_VARINT_BYTES);
  }

  lemma TakeLocal(s: Bytes, t: Bytes, n: nat)
    requires n <= |s|
    ensures Take(s + t, n) == Ok(s[..n], s[n..] + t)
  {
    assert (s + t)[..n] == s[..n] && (s + t)[n..] == s[n..] + t;
  }

  lemma ReadBytesLocal(s: Bytes, t: Bytes)
    requires ReadBytes(s).Ok?
    ensures var r := ReadBytes(s); ReadBytes(s + t) == Ok(r.value, r.rest + t)
  {
    ReadUInt32Local(s, t);
    var len := ReadUInt32(s);
    TakeLocal(len.rest, t, len.value);
  }

  lemma {:induction false} SkipLocal(s: Bytes, t: Bytes, wireType: nat)
    requires Skip(s, wireType).Ok?
    ensures var r := Skip(s, wireType); Skip(s + t, wireType) == Ok(r.value, r.rest + t)
    decreases |s|, 1
  {
    match wireType
    case 0 => ReadVarintLocal(s, t, MAX_VARINT_BYTES);
    case 1 => TakeLocal(s, t, 8);
    case 2 => ReadBytesLocal(s, t);
    case 3 => SkipGroupLocal(s, t);
    case 5 => TakeLocal(s, t, 4);
  }

  lemma {:induction false} SkipGroupLocal(s: Bytes, t: Bytes)
    requires SkipGroup(s).Ok?
    ensures var r := SkipGroup(s); SkipGroup(s + t) == Ok(r.value, r.rest + t)
    decreases |s|, 0
  {
    ReadUInt32Local(s, t);
    var tag := ReadUInt32(s);
    if tag.value % 8 != 4 {
      SkipLocal(tag.rest, t, tag.value % 8);
      SkipGroupLocal(Skip(tag.rest, tag.value % 8).rest, t);
    }
  }
}
