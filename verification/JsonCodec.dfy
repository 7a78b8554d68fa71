/** The wire form of dynamic JSON (`Struct`, its map entries, `Value`, `ListValue`) and of the
    messages that carry it. All decoders are one loop over fields; what differs between them is
    the table of fields each one knows. */
module JsonCodec {
  import opened Common
  import opened Wire

  /** A dynamically typed value. Objects are their entries in order. */
  datatype Json =
    | Undefined
    | Null
    | Bool(flag: bool)
    | Number(bits: Double)
    | Str(text: Bytes)
    | Arr(items: seq<Json>)
    | Obj(fields: seq<Field>)

  datatype Field = Field(key: Bytes, value: Json)

  /** A date is whole milliseconds since the epoch, or the invalid date. */
  datatype Date = At(ms: int) | Invalid

  datatype Kind = StructK | EntryK | ValueK | ListK | TimestampK | JobK | ResponseK

  datatype Msg =
    | StructMsg(fields: seq<Field>)
    | EntryMsg(key: Bytes, value: Json)
    | ValueMsg(nullValue: Option<int>, numberValue: Option<Double>, stringValue: Option<Bytes>,
               boolValue: Option<bool>, structValue: Option<seq<Field>>, listValue: Option<seq<Json>>)
    | ListMsg(values: seq<Json>)
    | TimestampMsg(seconds: int, nanos: int)
    | JobMsg(sessionId: Bytes, uploadKey: Bytes, status: int, score: Option<Double>,
             segments: Option<seq<Json>>, verdict: Option<Bytes>, evaluation: Option<seq<Field>>,
             createTime: Option<Date>)
    | ResponseMsg(job: Option<Msg>)

  function KindOf(m: Msg): Kind {
    match m
    case StructMsg(_) => StructK
    case EntryMsg(_, _) => EntryK
    case ValueMsg(_, _, _, _, _, _) => ValueK
    case ListMsg(_) => ListK
    case TimestampMsg(_, _) => TimestampK
    case JobMsg(_, _, _, _, _, _, _, _) => JobK
    case ResponseMsg(_) => ResponseK
  }

  /** The message a decoder starts from. */
  function Base(kind: Kind): (m: Msg)
    ensures KindOf(m) == kind
  {
    match kind
    case StructK => StructMsg([])
    case EntryK => EntryMsg([], Undefined)
    case ValueK => ValueMsg(None, None, None, None, None, None)
    case ListK => ListMsg([])
    case TimestampK => TimestampMsg(0, 0)
    case JobK => JobMsg([], [], 0, None, None, None, None, None)
    case ResponseK => ResponseMsg(None)
  }

  // ---------------------------------------------------------------- objects as entry lists

  function IndexOf(fields: seq<Field>, key: Bytes): (i: nat)
    ensures i <= |fields|
    ensures i < |fields| ==> fields[i].key == key
    ensures forall k :: 0 <= k < i ==> fields[k].key != key
  {
    if fields == [] || fields[0].key == key then 0 else 1 + IndexOf(fields[1..], key)
  }

  /** Assigning a property: an existing key keeps its place, a new one goes last. */
  function Put(fields: seq<Field>, key: Bytes, value: Json): seq<Field> {
    var i := IndexOf(fields, key);
    if i < |fields| then fields[i := Field(key, value)] else fields + [Field(key, value)]
  }

  function PutAll(fields: seq<Field>, more: seq<Field>): seq<Field>
    decreases |more|
  {
    if more == [] then fields else PutAll(Put(fields, more[0].key, more[0].value), more[1..])
  }

  /** Which property of a `Value` message the JSON value is read from. */
  function Unwrap(m: Msg): Json
    requires m.ValueMsg?
  {
    if m.stringValue.Some? then Str(m.stringValue.value)
    else if m.numberValue.Some? then Number(m.numberValue.value)
    else if m.boolValue.Some? then Bool(m.boolValue.value)
    else if m.structValue.Some? then Obj(m.structValue.value)
    else if m.listValue.Some? then Arr(m.listValue.value)
    else if m.nullValue.Some? then Null
    else Undefined
  }

  // ---------------------------------------------------------------- dates

  const MAX_DATE_MS := 8_640_000_000_000_000
  const MAX_SAFE_INTEGER := 0x1F_FFFF_FFFF_FFFF

  /** Division rounding toward zero, and its remainder. */
  function Quot(a: int, b: int): int
    requires b > 0
  {
    if a >= 0 then a / b else -((-a) / b)
  }

  function Rem(a: int, b: int): int
    requires b > 0
  {
    a - b * Quot(a, b)
  }

  /** Seconds and nanos of a date; before 1970 both are negative or zero. */
  function ToTimestamp(ms: int): Msg {
    TimestampMsg(Quot(ms, 1000), Rem(ms, 1000) * 1_000_000)
  }

  /** The date of a timestamp, truncated to the millisecond. */
  function FromTimestamp(seconds: int, nanos: int): Date {
    var ms := Quot(seconds * 1_000_000_000 + nanos, 1_000_000);
    if -MAX_DATE_MS <= ms <= MAX_DATE_MS then At(ms) else Invalid
  }

  /** Every whole-millisecond date survives the conversion, on both sides of the epoch. */
  lemma DateRoundTrip(ms: int)
    requires -MAX_DATE_MS <= ms <= MAX_DATE_MS
    ensures var t := ToTimestamp(ms);
      && FromTimestamp(t.seconds, t.nanos) == At(ms)
      && -MAX_SAFE_INTEGER <= t.seconds <= MAX_SAFE_INTEGER && IsInt32(t.nanos)
  {
    var t := ToTimestamp(ms);
    assert t.seconds * 1_000_000_000 + t.nanos == ms * 1_000_000;
    assert Quot(ms * 1_000_000, 1_000_000) == ms;
  }

  /** What a timestamp of a date says: the same instant, cut toward the epoch to whole seconds. */
  lemma TimestampMeans(ms: int)
    ensures var t := ToTimestamp(ms);
      && t.seconds * 1_000_000_000 + t.nanos == ms * 1_000_000
      && (ms >= 0 ==> 0 <= t.nanos < 1_000_000_000) && (ms <= 0 ==> -1_000_000_000 < t.nanos <= 0)
  {
  }

  /** And what date a timestamp gives: its instant cut toward the epoch to whole milliseconds, or the
      invalid date beyond the range of dates. */
  lemma DateMeans(seconds: int, nanos: int)
    ensures var total := seconds * 1_000_000_000 + nanos;
      match FromTimestamp(seconds, nanos)
      case At(ms) =>
        if total >= 0 then ms * 1_000_000 <= total < (ms + 1) * 1_000_000
        else (ms - 1) * 1_000_000 < total <= ms * 1_000_000
      case Invalid => total <= -(MAX_DATE_MS + 1) * 1_000_000 || total >= (MAX_DATE_MS + 1) * 1_000_000
  {
  }

  /** The nanos stay within a second from zero, as the timestamp's own description demands, exactly
      for dates from the epoch on or on a whole second; other dates before the epoch get negative
      nanos. */
  lemma NanosInRangeIff(ms: int)
    ensures 0 <= ToTimestamp(ms).nanos < 1_000_000_000 <==> ms >= 0 || ms % 1000 == 0
  {
    if ms < 0 {
      assert (-ms) % 1000 == 0 <==> ms % 1000 == 0;
    }
  }

  // ---------------------------------------------------------------- decoding

  /** The fields whose payload is another message, and that message's kind. */
  function Nested(kind: Kind, tag: nat): Option<Kind> {
    match (kind, tag)
    case (StructK, 10) => Some(EntryK)
    case (EntryK, 18) => Some(ValueK)
    case (ValueK, 42) => Some(StructK)
    case (ValueK, 50) => Some(ListK)
    case (ListK, 10) => Some(ValueK)
    case (JobK, 42) => Some(ListK)
    case (JobK, 58) => Some(StructK)
    case (JobK, 66) => Some(TimestampK)
    case (ResponseK, 10) => Some(JobK)
    case _ => None
  }

  /** The fields with a scalar payload. */
  predicate IsScalar(kind: Kind, tag: nat) {
    match kind
    case EntryK => tag == 10
    case ValueK => tag in {8, 17, 26, 32}
    case TimestampK => tag in {8, 16}
    case JobK => tag in {10, 18, 24, 33, 50}
    case _ => false
  }

  /** Stores a decoded nested message. An entry without a value is dropped. */
  function Absorb(m: Msg, tag: nat, sub: Msg): (r: Msg)
    requires Nested(KindOf(m), tag) == Some(KindOf(sub))
    ensures KindOf(r) == KindOf(m)
  {
    match (m, sub)
    case (StructMsg(fields), EntryMsg(key, value)) =>
      if value == Undefined then m else StructMsg(Put(fields, key, value))
    case (EntryMsg(key, _), _) => EntryMsg(key, Unwrap(sub))
    case (ValueMsg(_, _, _, _, _, _), StructMsg(fields)) => m.(structValue := Some(fields))
    case (ValueMsg(_, _, _, _, _, _), ListMsg(values)) => m.(listValue := Some(values))
    case (ListMsg(values), _) => ListMsg(values + [Unwrap(sub)])
    case (JobMsg(_, _, _, _, _, _, _, _), ListMsg(values)) => m.(segments := Some(values))
    case (JobMsg(_, _, _, _, _, _, _, _), StructMsg(fields)) => m.(evaluation := Some(fields))
    case (JobMsg(_, _, _, _, _, _, _, _), TimestampMsg(s, n)) => m.(createTime := Some(FromTimestamp(s, n)))
    case (ResponseMsg(_), _) => ResponseMsg(Some(sub))
  }

  function ReadInt32(s: Bytes): (r: Read<int>)
    ensures r.Ok? ==> |r.rest| < |s|
  {
    match ReadVarint(s, MAX_VARINT_BYTES)
    case Ok(n, rest) => Ok(ToInt32(n), rest)
    case Err(e) => Err(e)
  }

  /** A 64-bit integer that must be exactly representable as a double. */
  function ReadSafeInt64(s: Bytes): (r: Read<int>)
    ensures r.Ok? ==> |r.rest| < |s|
  {
    match ReadVarint(s, MAX_VARINT_BYTES)
    case Ok(n, rest) =>
      if -MAX_SAFE_INTEGER <= ToInt64(n) <= MAX_SAFE_INTEGER then Ok(ToInt64(n), rest) else Err(UnsafeInteger)
    case Err(e) => Err(e)
  }

  function ReadBool(s: Bytes): (r: Read<bool>)
    ensures r.Ok? ==> |r.rest| < |s|
  {
    match ReadVarint(s, MAX_VARINT_BYTES)
    case Ok(n, rest) => Ok(n % TWO_64 != 0, rest)
    case Err(e) => Err(e)
  }

  function ReadDouble(s: Bytes): (r: Read<Double>)
    ensures r.Ok? ==> |r.rest| < |s|
  {
    match Take(s, 8)
    case Ok(bits, rest) => Ok(bits, rest)
    case Err(e) => Err(e)
  }

  /** Reads one scalar field into the message; a later occurrence replaces an earlier one. */
  function ReadScalar(m: Msg, tag: nat, s: Bytes): (r: Read<Msg>)
    requires IsScalar(KindOf(m), tag)
    ensures r.Ok? ==> |r.rest| < |s| && KindOf(r.value) == KindOf(m)
  {
    match (m, tag)
    case (EntryMsg(_, value), _) =>
      (match ReadBytes(s) case Ok(b, rest) => Ok(EntryMsg(b, value), rest) case Err(e) => Err(e))
    case (ValueMsg(_, _, _, _, _, _), 8) =>
      (match ReadInt32(s) case Ok(v, rest) => Ok(m.(nullValue := Some(v)), rest) case Err(e) => Err(e))
    case (ValueMsg(_, _, _, _, _, _), 17) =>
      (match ReadDouble(s) case Ok(d, rest) => Ok(m.(numberValue := Some(d)), rest) case Err(e) => Err(e))
    case (ValueMsg(_, _, _, _, _, _), 26) =>
      (match ReadBytes(s) case Ok(b, rest) => Ok(m.(stringValue := Some(b)), rest) case Err(e) => Err(e))
    case (ValueMsg(_, _, _, _, _, _), _) =>
      (match ReadBool(s) case Ok(b, rest) => Ok(m.(boolValue := Some(b)), rest) case Err(e) => Err(e))
    case (TimestampMsg(_, _), 8) =>
      (match ReadSafeInt64(s) case Ok(v, rest) => Ok(m.(seconds := v), rest) case Err(e) => Err(e))
    case (TimestampMsg(_, _), _) =>
      (match ReadInt32(s) case Ok(v, rest) => Ok(m.(nanos := v), rest) case Err(e) => Err(e))
    case (JobMsg(_, _, _, _, _, _, _, _), 10) =>
      (match ReadBytes(s) case Ok(b, rest) => Ok(m.(sessionId := b), rest) case Err(e) => Err(e))
    case (JobMsg(_, _, _, _, _, _, _, _), 18) =>
      (match ReadBytes(s) case Ok(b, rest) => Ok(m.(uploadKey := b), rest) case Err(e) => Err(e))
    case (JobMsg(_, _, _, _, _, _, _, _), 24) =>
      (match ReadInt32(s) case Ok(v, rest) => Ok(m.(status := v), rest) case Err(e) => Err(e))
    case (JobMsg(_, _, _, _, _, _, _, _), 33) =>
      (match ReadDouble(s) case Ok(d, rest) => Ok(m.(score := Some(d)), rest) case Err(e) => Err(e))
    case (JobMsg(_, _, _, _, _, _, _, _), _) =>
      (match ReadBytes(s) case Ok(b, rest) => Ok(m.(verdict := Some(b)), rest) case Err(e) => Err(e))
  }

  const MAX_DEPTH := 100

  /** Where a field loop ended: at the end of the message, or early at a zero or end-group tag. */
  datatype LoopEnd = LoopEnd(msg: Msg, atEnd: bool)

  /** Decodes a message of `len` bytes; `depth` decoders are already active. */
  function Message(kind: Kind, s: Bytes, len: nat, depth: nat): (r: Read<Msg>)
    ensures r.Ok? ==> |r.rest| <= |s| && KindOf(r.value) == kind
    decreases |s|, 1
  {
    if depth >= MAX_DEPTH then Err(RecursionLimit)
    else match Loop(s, |s| - len, depth + 1, Base(kind))
      case Ok(end, rest) => Ok(end.msg, rest)
      case Err(e) => Err(e)
  }

  /** Reads fields while more than `stop` bytes are left. A length that runs past the enclosing
      message is not checked, and a nested reader may pass `stop`. */
  function Loop(s: Bytes, stop: int, depth: nat, m: Msg): (r: Read<LoopEnd>)
    ensures r.Ok? ==> |r.rest| <= |s| && KindOf(r.value.msg) == KindOf(m)
    decreases |s|, 0
  {
    if |s| <= stop then Ok(LoopEnd(m, true), s)
    else match ReadUInt32(s)
      case Err(e) => Err(e)
      case Ok(tag, s1) =>
        if Nested(KindOf(m), tag).Some? || IsScalar(KindOf(m), tag) then
          match ReadField(m, tag, s1, depth)
          case Err(e) => Err(e)
          case Ok(m', s2) => Loop(s2, stop, depth, m')
        else if tag % 8 == 4 || tag == 0 then Ok(LoopEnd(m, false), s1)
        else match Skip(s1, tag % 8)
          case Err(e) => Err(e)
          case Ok(_, s2) => Loop(s2, stop, depth, m)
  }

  function ReadField(m: Msg, tag: nat, s: Bytes, depth: nat): (r: Read<Msg>)
    requires Nested(KindOf(m), tag).Some? || IsScalar(KindOf(m), tag)
    ensures r.Ok? ==> |r.rest| < |s| && KindOf(r.value) == KindOf(m)
    decreases |s|, 2
  {
    match Nested(KindOf(m), tag)
    case None => ReadScalar(m, tag, s)
    case Some(kind) =>
      match ReadUInt32(s)
      case Err(e) => Err(e)
      case Ok(len, s1) =>
        match Message(kind, s1, len, depth)
        case Err(e) => Err(e)
        case Ok(sub, s2) => Ok(Absorb(m, tag, sub), s2)
  }

  // ---------------------------------------------------------------- encoding

  function EncodeValue(v: Json): Bytes
    decreases v, 0
  {
    match v
    case Undefined => []
    case Null => [8] + EncodeInt(0)
    case Number(bits) => [17] + bits
    case Str(text) => [26] + Delimited(text)
    case Bool(flag) => [32] + EncodeVarint(if flag then 1 else 0)
    case Obj(fields) => [42] + Delimited(EncodeFields(fields))
    case Arr(items) => [50] + Delimited(EncodeItems(items))
  }

  function EncodeFields(fields: seq<Field>): Bytes
    decreases fields, 0
  {
    if fields == [] then []
    else (if fields[0].value == Undefined then [] else [10] + Delimited(EncodeEntry(fields[0])))
         + EncodeFields(fields[1..])
  }

  function EncodeEntry(f: Field): Bytes
    decreases f, 0
  {
    (if f.key == [] then [] else [10] + Delimited(f.key))
    + (if f.value == Undefined then [] else [18] + Delimited(EncodeValue(f.value)))
  }

  function EncodeItems(items: seq<Json>): Bytes
    decreases items, 0
  {
    if items == [] then [] else [10] + Delimited(EncodeValue(items[0])) + EncodeItems(items[1..])
  }

  /** Every length the encoder writes fits the 32 bits it writes lengths with. */
  predicate ValueFits(v: Json)
    decreases v, 0
  {
    match v
    case Str(text) => |text| < TWO_32
    case Obj(fields) => |EncodeFields(fields)| < TWO_32 && FieldsFit(fields)
    case Arr(items) => |EncodeItems(items)| < TWO_32 && ItemsFit(items)
    case _ => true
  }

  predicate FieldsFit(fields: seq<Field>)
    decreases fields, 0
  {
    fields == [] || ((fields[0].value != Undefined ==> EntryFits(fields[0])) && FieldsFit(fields[1..]))
  }

  predicate EntryFits(f: Field)
    decreases f, 0
  {
    && |EncodeEntry(f)| < TWO_32
    && |f.key| < TWO_32
    && |EncodeValue(f.value)| < TWO_32
    && ValueFits(f.value)
  }

  predicate ItemsFit(items: seq<Json>)
    decreases items, 0
  {
    items == [] || (|EncodeValue(items[0])| < TWO_32 && ValueFits(items[0]) && ItemsFit(items[1..]))
  }

  // ---------------------------------------------------------------- nesting need

  /** How many decoders deep a value goes: each struct, entry, value and list costs one. */
  function ValueNeed(v: Json): nat
    decreases v, 0
  {
    match v
    case Obj(fields) => 2 + FieldsNeed(fields)
    case Arr(items) => 2 + ItemsNeed(items)
    case _ => 1
  }

  function FieldsNeed(fields: seq<Field>): nat
    decreases fields, 0
  {
    if fields == [] then 0
    else Larger(if fields[0].value == Undefined then 0 else FieldNeed(fields[0]), FieldsNeed(fields[1..]))
  }

  function FieldNeed(f: Field): nat
    decreases f, 0
  {
    1 + ValueNeed(f.value)
  }

  function ItemsNeed(items: seq<Json>): nat
    decreases items, 0
  {
    if items == [] then 0 else Larger(ValueNeed(items[0]), ItemsNeed(items[1..]))
  }

  // ---------------------------------------------------------------- what is encoded

  /** The value an encoding stands for: undefined properties are not written, and a repeated key
      is assigned again. */
  function Clean(v: Json): Json
    decreases v, 0
  {
    match v
    case Obj(fields) => Obj(PutAll([], CleanFields(fields)))
    case Arr(items) => Arr(CleanItems(items))
    case _ => v
  }

  function CleanFields(fields: seq<Field>): seq<Field>
    decreases fields, 0
  {
    if fields == [] then []
    else (if fields[0].value == Undefined then [] else [CleanField(fields[0])]) + CleanFields(fields[1..])
  }

  function CleanField(f: Field): Field
    decreases f, 0
  {
    Field(f.key, Clean(f.value))
  }

  function CleanItems(items: seq<Json>): (r: seq<Json>)
    ensures |r| == |items|
    decreases items, 0
  {
    if items == [] then [] else [Clean(items[0])] + CleanItems(items[1..])
  }

  /** A JSON tree: the keys of an object are distinct and every property has a value. */
  ghost predicate IsTree(v: Json)
    decreases v, 0
  {
    match v
    case Obj(fields) => FieldsAreTrees(fields) && DistinctKeys(fields)
    case Arr(items) => ItemsAreTrees(items)
    case _ => true
  }

  ghost predicate FieldsAreTrees(fields: seq<Field>)
    decreases fields, 0
  {
    fields == [] || (fields[0].value != Undefined && FieldIsTree(fields[0]) && FieldsAreTrees(fields[1..]))
  }

  ghost predicate FieldIsTree(f: Field)
    decreases f, 0
  {
    IsTree(f.value)
  }

  ghost predicate ItemsAreTrees(items: seq<Json>)
    decreases items, 0
  {
    items == [] || (IsTree(items[0]) && ItemsAreTrees(items[1..]))
  }

  ghost predicate DistinctKeys(fields: seq<Field>) {
    forall i, j :: 0 <= i < j < |fields| ==> fields[i].key != fields[j].key
  }
}
