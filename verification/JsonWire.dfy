/** The wire form stated from the schema: a message is a list of records, each a field number and a
    payload, and what a record stores is said by its number. Encoders and decoders are proved
    against it. */
module JsonWire {
  import opened Common
  import opened Wire
  import opened JsonCodec
  import opened JsonRoundTrip
  import opened JsonConcat
  import opened JobCodec

  datatype Payload = Varint(n: nat) | Fixed64(bits: Double) | Delim(bytes: Bytes) | Fixed32(word: Bytes)

  datatype Record = Record(number: nat, payload: Payload)

  /** A field number of 29 bits, and a payload the wire can carry. */
  predicate IsRecord(r: Record) {
    && 1 <= r.number < 0x2000_0000
    && match r.payload
       case Varint(n) => n < TWO_64
       case Fixed64(_) => true
       case Delim(bytes) => |bytes| < TWO_32
       case Fixed32(word) => |word| == 4
  }

  function WireType(p: Payload): (t: nat)
    ensures t < 8
  {
    match p
    case Varint(_) => 0
    case Fixed64(_) => 1
    case Delim(_) => 2
    case Fixed32(_) => 5
  }

  function PayloadBytes(p: Payload): Bytes {
    match p
    case Varint(n) => EncodeVarint(n)
    case Fixed64(bits) => bits
    case Delim(bytes) => EncodeVarint(|bytes|) + bytes
    case Fixed32(word) => word
  }

  /** A record is its tag, which is the number and the wire type, and its payload. */
  function RecordBytes(r: Record): Bytes {
    EncodeVarint(8 * r.number + WireType(r.payload)) + PayloadBytes(r.payload)
  }

  function Written(rs: seq<Record>): Bytes {
    if rs == [] then [] else RecordBytes(rs[0]) + Written(rs[1..])
  }

  // ---------------------------------------------------------------- the schema

  datatype FieldType = Text | Real | Whole32 | Whole64 | Truth | Sub(kind: Kind)

  /** The declared fields: `google.protobuf.Struct`, its map entry, `Value`, `ListValue`, `Timestamp`,
      and the scoring job with its response. */
  function Declared(kind: Kind, number: nat): Option<FieldType> {
    match (kind, number)
    case (StructK, 1) => Some(Sub(EntryK))
    case (EntryK, 1) => Some(Text)
    case (EntryK, 2) => Some(Sub(ValueK))
    case (ValueK, 1) => Some(Whole32)
    case (ValueK, 2) => Some(Real)
    case (ValueK, 3) => Some(Text)
    case (ValueK, 4) => Some(Truth)
    case (ValueK, 5) => Some(Sub(StructK))
    case (ValueK, 6) => Some(Sub(ListK))
    case (ListK, 1) => Some(Sub(ValueK))
    case (TimestampK, 1) => Some(Whole64)
    case (TimestampK, 2) => Some(Whole32)
    case (JobK, 1) => Some(Text)
    case (JobK, 2) => Some(Text)
    case (JobK, 3) => Some(Whole32)
    case (JobK, 4) => Some(Real)
    case (JobK, 5) => Some(Sub(ListK))
    case (JobK, 6) => Some(Text)
    case (JobK, 7) => Some(Sub(StructK))
    case (JobK, 8) => Some(Sub(TimestampK))
    case (ResponseK, 1) => Some(Sub(JobK))
    case _ => None
  }

  function TypeOnWire(t: FieldType): nat {
    match t
    case Text => 2
    case Real => 1
    case Whole32 => 0
    case Whole64 => 0
    case Truth => 0
    case Sub(_) => 2
  }

  /** The decoders know exactly the declared fields, each under its wire type. */
  lemma TablesAgree(kind: Kind, number: nat, wireType: nat)
    requires wireType < 8
    ensures Nested(kind, 8 * number + wireType) ==
      match Declared(kind, number)
      case Some(Sub(sub)) => if wireType == 2 then Some(sub) else None
      case _ => None
    ensures IsScalar(kind, 8 * number + wireType) <==>
      (Declared(kind, number).Some? && !Declared(kind, number).value.Sub?
       && wireType == TypeOnWire(Declared(kind, number).value))
  {
  }

  // ---------------------------------------------------------------- what a record stores

  function StoreText(m: Msg, number: nat, text: Bytes): Msg
    requires Declared(KindOf(m), number) == Some(Text)
  {
    match (m, number)
    case (EntryMsg(_, value), _) => EntryMsg(text, value)
    case (ValueMsg(_, _, _, _, _, _), _) => m.(stringValue := Some(text))
    case (JobMsg(_, _, _, _, _, _, _, _), 1) => m.(sessionId := text)
    case (JobMsg(_, _, _, _, _, _, _, _), 2) => m.(uploadKey := text)
    case (JobMsg(_, _, _, _, _, _, _, _), _) => m.(verdict := Some(text))
  }

  function StoreReal(m: Msg, number: nat, bits: Double): Msg
    requires Declared(KindOf(m), number) == Some(Real)
  {
    match m
    case ValueMsg(_, _, _, _, _, _) => m.(numberValue := Some(bits))
    case JobMsg(_, _, _, _, _, _, _, _) => m.(score := Some(bits))
  }

  /** The low 32 bits as a signed number: the null, the nanos, the status. */
  function StoreWhole32(m: Msg, number: nat, v: int): Msg
    requires Declared(KindOf(m), number) == Some(Whole32)
  {
    match m
    case ValueMsg(_, _, _, _, _, _) => m.(nullValue := Some(v))
    case TimestampMsg(seconds, _) => TimestampMsg(seconds, v)
    case JobMsg(_, _, _, _, _, _, _, _) => m.(status := v)
  }

  function StoreSub(m: Msg, number: nat, sub: Msg): Msg
    requires Declared(KindOf(m), number) == Some(Sub(KindOf(sub)))
  {
    match (m, number)
    case (StructMsg(fields), _) =>
      if sub.value == Undefined then m else StructMsg(Put(fields, sub.key, sub.value))
    case (EntryMsg(key, _), _) => EntryMsg(key, Unwrap(sub))
    case (ValueMsg(_, _, _, _, _, _), 5) => m.(structValue := Some(sub.fields))
    case (ValueMsg(_, _, _, _, _, _), _) => m.(listValue := Some(sub.values))
    case (ListMsg(values), _) => ListMsg(values + [Unwrap(sub)])
    case (JobMsg(_, _, _, _, _, _, _, _), 5) => m.(segments := Some(sub.values))
    case (JobMsg(_, _, _, _, _, _, _, _), 7) => m.(evaluation := Some(sub.fields))
    case (JobMsg(_, _, _, _, _, _, _, _), _) => m.(createTime := Some(FromTimestamp(sub.seconds, sub.nanos)))
    case (ResponseMsg(_), _) => ResponseMsg(Some(sub))
  }

  /** The message after one record, if the record can be decoded; a record with an undeclared number or
      another wire type than declared stores nothing. */
  function Store(m: Msg, r: Record, depth: nat): (stored: Option<Msg>)
    ensures stored.Some? ==> KindOf(stored.value) == KindOf(m)
  {
    match (Declared(KindOf(m), r.number), r.payload)
    case (Some(Text), Delim(text)) => Some(StoreText(m, r.number, text))
    case (Some(Real), Fixed64(bits)) => Some(StoreReal(m, r.number, bits))
    case (Some(Whole32), Varint(n)) => Some(StoreWhole32(m, r.number, ToInt32(n)))
    case (Some(Whole64), Varint(n)) =>
      if -MAX_SAFE_INTEGER <= ToInt64(n) <= MAX_SAFE_INTEGER then Some(TimestampMsg(ToInt64(n), m.nanos)) else None
    case (Some(Truth), Varint(n)) => Some(m.(boolValue := Some(n % TWO_64 != 0)))
    case (Some(Sub(kind)), Delim(bytes)) =>
      (match Message(kind, bytes, |bytes|, depth)
       case Ok(sub, rest) => if rest == [] then Some(StoreSub(m, r.number, sub)) else None
       case Err(_) => None)
    case _ => Some(m)
  }

  function StoreAll(m: Msg, rs: seq<Record>, depth: nat): (stored: Option<Msg>)
    ensures stored.Some? ==> KindOf(stored.value) == KindOf(m)
    decreases |rs|
  {
    if rs == [] then Some(m)
    else match Store(m, rs[0], depth)
      case Some(m') => StoreAll(m', rs[1..], depth)
      case None => None
  }

  // ---------------------------------------------------------------- decoding

  lemma {:induction false} TagOfRecord(r: Record, tail: Bytes)
    requires IsRecord(r)
    ensures ReadUInt32(RecordBytes(r) + tail) == Ok(8 * r.number + WireType(r.payload), PayloadBytes(r.payload) + tail)
  {
    var tag := 8 * r.number + WireType(r.payload);
    UInt32RoundTrip(tag, PayloadBytes(r.payload) + tail);
    assert RecordBytes(r) + tail == EncodeVarint(tag) + (PayloadBytes(r.payload) + tail);
  }

  /** Skipping by wire type consumes exactly the payload. */
  lemma {:induction false} SkipPayload(r: Record, tail: Bytes)
    requires IsRecord(r)
    ensures var skipped := Skip(PayloadBytes(r.payload) + tail, WireType(r.payload));
      skipped.Ok? && skipped.rest == tail
  {
    match r.payload
    case Varint(n) =>
      VarintRange();
      VarintRoundTrip(n, tail, MAX_VARINT_BYTES);
    case Fixed64(bits) => assert (bits + tail)[8..] == tail;
    case Delim(bytes) => DelimitedRoundTrip(bytes, tail);
    case Fixed32(word) => assert (word + tail)[4..] == tail;
  }

  /** A declared scalar record is read into the property of its number. */
  lemma {:induction false} ScalarStores(m: Msg, r: Record, tail: Bytes, depth: nat)
    requires IsRecord(r) && IsScalar(KindOf(m), 8 * r.number + WireType(r.payload)) && Store(m, r, depth).Some?
    ensures ReadScalar(m, 8 * r.number + WireType(r.payload), PayloadBytes(r.payload) + tail)
         == Ok(Store(m, r, depth).value, tail)
  {
    hide Message;
    TablesAgree(KindOf(m), r.number, WireType(r.payload));
    match r.payload
    case Varint(n) =>
      VarintRange();
      VarintRoundTrip(n, tail, MAX_VARINT_BYTES);
    case Fixed64(bits) => assert (bits + tail)[..8] == bits && (bits + tail)[8..] == tail;
    case Delim(bytes) => DelimitedRoundTrip(bytes, tail);
    case Fixed32(_) =>
  }

  /** A declared message record is decoded and stored under its number. */
  lemma {:induction false} SubStores(m: Msg, r: Record, tail: Bytes, depth: nat)
    requires IsRecord(r) && r.payload.Delim? && Store(m, r, depth).Some?
    requires Declared(KindOf(m), r.number).Some? && Declared(KindOf(m), r.number).value.Sub?
    ensures Nested(KindOf(m), 8 * r.number + 2) == Some(Declared(KindOf(m), r.number).value.kind)
    ensures ReadField(m, 8 * r.number + 2, PayloadBytes(r.payload) + tail, depth) == Ok(Store(m, r, depth).value, tail)
  {
    hide Message;
    var kind, bytes := Declared(KindOf(m), r.number).value.kind, r.payload.bytes;
    TablesAgree(KindOf(m), r.number, 2);
    DelimitedRoundTrip(bytes, tail);
    MessageLocal(kind, bytes, tail, |bytes|, depth);
    assert [] + tail == tail;
  }

  /** In front of any tail the field loop stores a record and goes on behind it. */
  lemma {:induction false} LoopStores(m: Msg, r: Record, tail: Bytes, stop: int, depth: nat)
    requires IsRecord(r) && Store(m, r, depth).Some? && stop <= |tail|
    ensures Loop(RecordBytes(r) + tail, stop, depth, m) == Loop(tail, stop, depth, Store(m, r, depth).value)
  {
    hide Loop, Message, RecordBytes, PayloadBytes, ReadScalar, Skip, Nested, IsScalar, Store, ReadUInt32;
    var tag := 8 * r.number + WireType(r.payload);
    if Nested(KindOf(m), tag).Some? || IsScalar(KindOf(m), tag) {
      FieldStores(m, r, tail, depth);
      LoopReads(m, r, tail, stop, depth);
    } else {
      UnknownStoresNothing(m, r, depth);
      LoopSkips(m, r, tail, stop, depth);
    }
  }

  lemma {:induction false} FieldStores(m: Msg, r: Record, tail: Bytes, depth: nat)
    requires IsRecord(r) && Store(m, r, depth).Some?
    requires var tag := 8 * r.number + WireType(r.payload); Nested(KindOf(m), tag).Some? || IsScalar(KindOf(m), tag)
    ensures ReadField(m, 8 * r.number + WireType(r.payload), PayloadBytes(r.payload) + tail, depth)
         == Ok(Store(m, r, depth).value, tail)
  {
    hide Loop, Message, PayloadBytes, ReadScalar, Nested, IsScalar, Store;
    TablesAgree(KindOf(m), r.number, WireType(r.payload));
    if Nested(KindOf(m), 8 * r.number + WireType(r.payload)).Some? {
      SubStores(m, r, tail, depth);
    } else {
      ScalarStores(m, r, tail, depth);
    }
  }

  lemma {:induction false} UnknownStoresNothing(m: Msg, r: Record, depth: nat)
    requires var tag := 8 * r.number + WireType(r.payload); Nested(KindOf(m), tag) == None && !IsScalar(KindOf(m), tag)
    ensures Store(m, r, depth) == Some(m)
  {
    hide Message, Nested, IsScalar, Declared;
    TablesAgree(KindOf(m), r.number, WireType(r.payload));
  }

  lemma {:induction false} LoopReads(m: Msg, r: Record, tail: Bytes, stop: int, depth: nat)
    requires IsRecord(r) && stop <= |tail|
    requires var tag := 8 * r.number + WireType(r.payload); Nested(KindOf(m), tag).Some? || IsScalar(KindOf(m), tag)
    requires ReadField(m, 8 * r.number + WireType(r.payload), PayloadBytes(r.payload) + tail, depth).Ok?
    ensures var f := ReadField(m, 8 * r.number + WireType(r.payload), PayloadBytes(r.payload) + tail, depth);
      Loop(RecordBytes(r) + tail, stop, depth, m) == Loop(f.rest, stop, depth, f.value)
  {
    hide Message, RecordBytes, PayloadBytes, ReadField, Skip, Nested, IsScalar, ReadUInt32;
    TagOfRecord(r, tail);
    RecordIsLonger(r, tail);
  }

  lemma {:induction false} LoopSkips(m: Msg, r: Record, tail: Bytes, stop: int, depth: nat)
    requires IsRecord(r) && stop <= |tail|
    requires var tag := 8 * r.number + WireType(r.payload); Nested(KindOf(m), tag) == None && !IsScalar(KindOf(m), tag)
    ensures Loop(RecordBytes(r) + tail, stop, depth, m) == Loop(tail, stop, depth, m)
  {
    hide Message, RecordBytes, PayloadBytes, ReadField, Skip, Nested, IsScalar, ReadUInt32;
    TagOfRecord(r, tail);
    RecordIsLonger(r, tail);
    SkipPayload(r, tail);
  }

  lemma RecordIsLonger(r: Record, tail: Bytes)
    ensures |RecordBytes(r) + tail| > |tail|
  {
  }

  lemma {:induction false} LoopStoresAll(m: Msg, rs: seq<Record>, rest: Bytes, depth: nat)
    requires (forall k :: 0 <= k < |rs| ==> IsRecord(rs[k])) && StoreAll(m, rs, depth).Some?
    ensures Loop(Written(rs) + rest, |rest|, depth, m) == Ok(LoopEnd(StoreAll(m, rs, depth).value, true), rest)
    decreases |rs|
  {
    hide Loop, Store, RecordBytes;
    if rs == [] {
      assert [] + rest == rest;
      LoopDone(rest, depth, m);
    } else {
      assert Written(rs) + rest == RecordBytes(rs[0]) + (Written(rs[1..]) + rest);
      LoopStores(m, rs[0], Written(rs[1..]) + rest, |rest|, depth);
      LoopStoresAll(Store(m, rs[0], depth).value, rs[1..], rest, depth);
    }
  }

  /** A decoder gives what the records store one after another, by the schema. */
  lemma {:induction false} MessageStoresAll(kind: Kind, rs: seq<Record>, rest: Bytes, depth: nat)
    requires depth < MAX_DEPTH && (forall k :: 0 <= k < |rs| ==> IsRecord(rs[k]))
    requires StoreAll(Base(kind), rs, depth + 1).Some?
    ensures Message(kind, Written(rs) + rest, |Written(rs)|, depth)
         == Ok(StoreAll(Base(kind), rs, depth + 1).value, rest)
  {
    hide Loop, Message, StoreAll, Written;
    MessageUnfold(kind, Written(rs), rest, depth);
    LoopStoresAll(Base(kind), rs, rest, depth + 1);
  }

  /** Seconds a double cannot hold exactly are refused. */
  lemma {:induction false} UnsafeSecondsRefused(n: nat, rest: Bytes, depth: nat)
    requires n < TWO_64 && depth < MAX_DEPTH
    requires ToInt64(n) < -9_007_199_254_740_991 || 9_007_199_254_740_991 < ToInt64(n)
    ensures var wire := Written([Record(1, Varint(n))]);
      Message(TimestampK, wire + rest, |wire|, depth) == Err(UnsafeInteger)
  {
    hide ToInt64, RecordBytes, PayloadBytes, ReadUInt32, Loop, Message;
    var r := Record(1, Varint(n));
    assert [r][1..] == [] && Written([r]) == RecordBytes(r);
    VarintRange();
    VarintRoundTrip(n, rest, MAX_VARINT_BYTES);
    VarintPayload(n, rest);
    MessageUnfold(TimestampK, RecordBytes(r), rest, depth);
    LoopFails(Base(TimestampK), r, rest, |rest|, depth + 1, UnsafeInteger);
  }

  lemma {:induction false} LoopFails(m: Msg, r: Record, tail: Bytes, stop: int, depth: nat, e: DecodeError)
    requires IsRecord(r) && stop <= |tail|
    requires var tag := 8 * r.number + WireType(r.payload); Nested(KindOf(m), tag).Some? || IsScalar(KindOf(m), tag)
    requires ReadField(m, 8 * r.number + WireType(r.payload), PayloadBytes(r.payload) + tail, depth) == Err(e)
    ensures Loop(RecordBytes(r) + tail, stop, depth, m) == Err(e)
  {
    hide Message, RecordBytes, PayloadBytes, ReadField, Skip, Nested, IsScalar, ReadUInt32;
    TagOfRecord(r, tail);
    RecordIsLonger(r, tail);
  }

  lemma VarintPayload(n: nat, rest: Bytes)
    ensures PayloadBytes(Varint(n)) + rest == EncodeVarint(n) + rest
  {
  }

  /** A tag of zero or the end of a group ends a message early. */
  lemma {:induction false} EndTagEnds(tag: nat, rest: Bytes, stop: int, depth: nat, m: Msg)
    requires tag < TWO_32 && (tag == 0 || tag % 8 == 4) && stop <= |rest|
    ensures Loop(EncodeVarint(tag) + rest, stop, depth, m) == Ok(LoopEnd(m, false), rest)
  {
    hide EncodeVarint, Message, ReadUInt32, Declared;
    UInt32RoundTrip(tag, rest);
    TablesAgree(KindOf(m), tag / 8, tag % 8);
    assert tag == 8 * (tag / 8) + tag % 8;
    NoNumberZero(KindOf(m), tag);
  }

  lemma NoNumberZero(kind: Kind, tag: nat)
    requires tag == 0 || tag % 8 == 4
    ensures Nested(kind, tag) == None && !IsScalar(kind, tag)
  {
  }

  /** Of several properties set in one value message a string wins over a number, a number over a
      boolean, then an object, a list, and last the null. */
  lemma UnwrapOrder(m: Msg)
    requires m.ValueMsg?
    ensures m.stringValue.Some? ==> Unwrap(m) == Str(m.stringValue.value)
    ensures Unwrap(m).Str? ==> m.stringValue.Some?
    ensures m.numberValue.Some? && !m.stringValue.Some? <==> Unwrap(m).Number?
    ensures Unwrap(m).Number? ==> Unwrap(m).bits == m.numberValue.value
    ensures m.boolValue.Some? && !m.stringValue.Some? && !m.numberValue.Some? <==> Unwrap(m).Bool?
    ensures Unwrap(m).Bool? ==> Unwrap(m).flag == m.boolValue.value
    ensures Unwrap(m).Obj? ==> m.structValue == Some(Unwrap(m).fields)
    ensures Unwrap(m).Arr? ==> m.listValue == Some(Unwrap(m).items) && m.structValue == None
    ensures m.structValue.Some? ==> !Unwrap(m).Arr? && Unwrap(m) != Null
    ensures Unwrap(m) == Null <==> m == m.(numberValue := None, stringValue := None, boolValue := None,
                                           structValue := None, listValue := None) && m.nullValue.Some?
    ensures Unwrap(m) == Undefined <==> m == ValueMsg(None, None, None, None, None, None)
  {
  }

  /** Skipping a group consumes its records and its end tag, and nothing more. */
  lemma {:induction false} GroupIsSkipped(rs: seq<Record>, number: nat, tail: Bytes)
    requires 1 <= number < 0x2000_0000 && forall k :: 0 <= k < |rs| ==> IsRecord(rs[k])
    ensures Skip(Written(rs) + (EncodeVarint(8 * number + 4) + tail), 3) == Ok([], tail)
    decreases |rs|
  {
    hide RecordBytes, PayloadBytes, EncodeVarint, ReadUInt32;
    var end := EncodeVarint(8 * number + 4) + tail;
    if rs == [] {
      assert [] + end == end;
      UInt32RoundTrip(8 * number + 4, tail);
    } else {
      var s := Written(rs[1..]) + end;
      assert Written(rs) + end == RecordBytes(rs[0]) + s;
      GroupIsSkipped(rs[1..], number, tail);
      GroupGoesOn(rs[0], s);
    }
  }

  lemma {:induction false} GroupGoesOn(r: Record, s: Bytes)
    requires IsRecord(r)
    ensures SkipGroup(RecordBytes(r) + s) == SkipGroup(s)
  {
    hide RecordBytes, PayloadBytes, ReadUInt32, Skip;
    TagOfRecord(r, s);
    SkipPayload(r, s);
  }

  // ---------------------------------------------------------------- encoding

  function ValueRecords(v: Json): seq<Record>
    decreases v, 0
  {
    match v
    case Undefined => []
    case Null => [Record(1, Varint(0))]
    case Number(bits) => [Record(2, Fixed64(bits))]
    case Str(text) => [Record(3, Delim(text))]
    case Bool(flag) => [Record(4, Varint(if flag then 1 else 0))]
    case Obj(fields) => [Record(5, Delim(Written(FieldsRecords(fields))))]
    case Arr(items) => [Record(6, Delim(Written(ItemsRecords(items))))]
  }

  /** One entry per property that is not undefined. */
  function FieldsRecords(fields: seq<Field>): seq<Record>
    decreases fields, 0
  {
    if fields == [] then []
    else if fields[0].value == Undefined then FieldsRecords(fields[1..])
    else [Record(1, Delim(Written(EntryRecords(fields[0]))))] + FieldsRecords(fields[1..])
  }

  /** An empty key is elided. */
  function EntryRecords(f: Field): seq<Record>
    decreases f, 0
  {
    (if f.key == [] then [] else [Record(1, Delim(f.key))])
    + (if f.value == Undefined then [] else [Record(2, Delim(Written(ValueRecords(f.value))))])
  }

  function ItemsRecords(items: seq<Json>): seq<Record>
    decreases items, 0
  {
    if items == [] then [] else [Record(1, Delim(Written(ValueRecords(items[0]))))] + ItemsRecords(items[1..])
  }

  lemma {:induction false} WrittenAppend(a: seq<Record>, b: seq<Record>)
    ensures Written(a + b) == Written(a) + Written(b)
  {
    if a == [] {
      assert a + b == b;
    } else {
      assert (a + b)[1..] == a[1..] + b;
      WrittenAppend(a[1..], b);
    }
  }

  /** A record with a one-byte tag. */
  lemma {:induction false} WrittenOne(number: nat, payload: Payload, tag: Byte)
    requires tag < 128 && tag == 8 * number + WireType(payload)
    ensures Written([Record(number, payload)]) == [tag] + PayloadBytes(payload)
  {
    assert [Record(number, payload)][1..] == [];
    assert EncodeVarint(tag) == [tag];
  }

  /** Every encoder writes the records of the schema. */
  lemma {:induction false} ValueIsWritten(v: Json)
    ensures EncodeValue(v) == Written(ValueRecords(v))
    decreases v, 0
  {
    hide RecordBytes, Written;
    match v
    case Undefined => NothingWritten();
    case Null => WrittenOne(1, Varint(0), 8);
    case Number(bits) => WrittenOne(2, Fixed64(bits), 17);
    case Str(text) => WrittenOne(3, Delim(text), 26);
    case Bool(flag) => WrittenOne(4, Varint(if flag then 1 else 0), 32);
    case Obj(fields) =>
      FieldsAreWritten(fields);
      WrittenOne(5, Delim(EncodeFields(fields)), 42);
    case Arr(items) =>
      ItemsAreWritten(items);
      WrittenOne(6, Delim(EncodeItems(items)), 50);
  }

  lemma NothingWritten()
    ensures Written([]) == []
  {
  }

  lemma {:induction false} FieldsAreWritten(fields: seq<Field>)
    ensures EncodeFields(fields) == Written(FieldsRecords(fields))
    decreases fields, 0
  {
    hide RecordBytes, Written, EncodeEntry, EntryRecords;
    if fields == [] {
      NothingWritten();
    } else {
      FieldsAreWritten(fields[1..]);
      if fields[0].value != Undefined {
        EntryIsWritten(fields[0]);
        WrittenOne(1, Delim(EncodeEntry(fields[0])), 10);
        WrittenAppend([Record(1, Delim(EncodeEntry(fields[0])))], FieldsRecords(fields[1..]));
      }
    }
  }

  lemma {:induction false} EntryIsWritten(f: Field)
    ensures EncodeEntry(f) == Written(EntryRecords(f))
    decreases f, 0
  {
    hide RecordBytes, Written, EncodeValue, ValueRecords;
    NothingWritten();
    if f.key != [] { WrittenOne(1, Delim(f.key), 10); }
    if f.value != Undefined {
      ValueIsWritten(f.value);
      WrittenOne(2, Delim(EncodeValue(f.value)), 18);
    }
    WrittenAppend(if f.key == [] then [] else [Record(1, Delim(f.key))],
                  if f.value == Undefined then [] else [Record(2, Delim(Written(ValueRecords(f.value))))]);
  }

  lemma {:induction false} ItemsAreWritten(items: seq<Json>)
    ensures EncodeItems(items) == Written(ItemsRecords(items))
    decreases items, 0
  {
    hide RecordBytes, Written, EncodeValue, ValueRecords;
    if items == [] {
      NothingWritten();
    } else {
      ValueIsWritten(items[0]);
      ItemsAreWritten(items[1..]);
      WrittenOne(1, Delim(EncodeValue(items[0])), 10);
      WrittenAppend([Record(1, Delim(EncodeValue(items[0])))], ItemsRecords(items[1..]));
    }
  }

  // ---------------------------------------------------------------- the envelope

  /** A string, elided when empty; an integer, elided when zero, as its 64-bit two's complement. */
  function TextRecord(number: nat, text: Bytes): seq<Record> {
    if text == [] then [] else [Record(number, Delim(text))]
  }

  function WholeRecord(number: nat, v: int): seq<Record>
    requires IsInt64(v)
  {
    if v == 0 then [] else [Record(number, Varint(if v < 0 then v + TWO_64 else v))]
  }

  function TimestampRecords(seconds: int, nanos: int): seq<Record>
    requires IsInt64(seconds) && IsInt64(nanos)
  {
    WholeRecord(1, seconds) + WholeRecord(2, nanos)
  }

  function OptionalRecord(number: nat, payload: Option<Payload>): seq<Record> {
    match payload case None => [] case Some(p) => [Record(number, p)]
  }

  function SegmentsPayload(segments: Option<seq<Json>>): Option<Payload> {
    match segments case None => None case Some(items) => Some(Delim(Written(ItemsRecords(items))))
  }

  function EvaluationPayload(evaluation: Option<seq<Field>>): Option<Payload> {
    match evaluation case None => None case Some(fields) => Some(Delim(Written(FieldsRecords(fields))))
  }

  function CreateTimePayload(date: Option<Date>): Option<Payload>
    requires date.Some? ==> DateFits(date.value)
  {
    match date
    case None => None
    case Some(d) => Some(Delim(Written(TimestampRecords(DateSeconds(d), DateNanos(d)))))
  }

  /** The eight fields of a job in the order of their numbers. */
  function JobRecords(j: Msg): seq<Record>
    requires j.JobMsg? && JobFits(j)
  {
    TextRecord(1, j.sessionId) + TextRecord(2, j.uploadKey) + WholeRecord(3, j.status)
    + OptionalRecord(4, if j.score.Some? then Some(Fixed64(j.score.value)) else None)
    + OptionalRecord(5, SegmentsPayload(j.segments))
    + OptionalRecord(6, if j.verdict.Some? then Some(Delim(j.verdict.value)) else None)
    + OptionalRecord(7, EvaluationPayload(j.evaluation))
    + OptionalRecord(8, CreateTimePayload(j.createTime))
  }

  lemma {:induction false} TextIsWritten(number: nat, tag: Byte, text: Bytes)
    requires tag < 128 && tag == 8 * number + 2
    ensures StringField(tag, text) == Written(TextRecord(number, text))
  {
    NothingWritten();
    if text != [] { WrittenOne(number, Delim(text), tag); }
  }

  lemma {:induction false} WholeIsWritten(number: nat, tag: Byte, v: int)
    requires IsInt64(v) && tag < 128 && tag == 8 * number
    ensures IntField(tag, v) == Written(WholeRecord(number, v))
  {
    NothingWritten();
    if v != 0 { WrittenOne(number, Varint(if v < 0 then v + TWO_64 else v), tag); }
  }

  lemma {:induction false} TimestampIsWritten(seconds: int, nanos: int)
    requires IsInt64(seconds) && IsInt64(nanos)
    ensures EncodeTimestamp(seconds, nanos) == Written(TimestampRecords(seconds, nanos))
  {
    hide IntField, WholeRecord, Written;
    WholeIsWritten(1, 8, seconds);
    WholeIsWritten(2, 16, nanos);
    WrittenAppend(WholeRecord(1, seconds), WholeRecord(2, nanos));
  }

  lemma {:induction false} OptionalIsWritten(number: nat, tag: Byte, payload: Option<Payload>)
    requires payload.Some? ==> tag < 128 && tag == 8 * number + WireType(payload.value)
    ensures Written(OptionalRecord(number, payload)) ==
      if payload.Some? then [tag] + PayloadBytes(payload.value) else []
  {
    NothingWritten();
    if payload.Some? { WrittenOne(number, payload.value, tag); }
  }

  lemma {:induction false} JobTailIsWritten(j: Msg)
    requires j.JobMsg? && JobFits(j)
    ensures ScoreField(j.score) ==
      Written(OptionalRecord(4, if j.score.Some? then Some(Fixed64(j.score.value)) else None))
    ensures SegmentsField(j.segments) == Written(OptionalRecord(5, SegmentsPayload(j.segments)))
    ensures VerdictField(j.verdict) ==
      Written(OptionalRecord(6, if j.verdict.Some? then Some(Delim(j.verdict.value)) else None))
    ensures EvaluationField(j.evaluation) == Written(OptionalRecord(7, EvaluationPayload(j.evaluation)))
    ensures CreateTimeField(j.createTime) == Written(OptionalRecord(8, CreateTimePayload(j.createTime)))
  {
    hide Written, OptionalRecord, EncodeItems, EncodeFields, ItemsRecords, FieldsRecords, EncodeTimestamp,
         TimestampRecords, ItemsFit, FieldsFit;
    OptionalIsWritten(4, 33, if j.score.Some? then Some(Fixed64(j.score.value)) else None);
    OptionalIsWritten(5, 42, SegmentsPayload(j.segments));
    OptionalIsWritten(6, 50, if j.verdict.Some? then Some(Delim(j.verdict.value)) else None);
    OptionalIsWritten(7, 58, EvaluationPayload(j.evaluation));
    OptionalIsWritten(8, 66, CreateTimePayload(j.createTime));
    if j.segments.Some? { ItemsAreWritten(j.segments.value); }
    if j.evaluation.Some? { FieldsAreWritten(j.evaluation.value); }
    if j.createTime.Some? {
      TimestampIsWritten(DateSeconds(j.createTime.value), DateNanos(j.createTime.value));
    }
  }

  lemma {:induction false} JobIsWritten(j: Msg)
    requires j.JobMsg? && JobFits(j)
    ensures EncodeJob(j) == Written(JobRecords(j))
  {
    hide Written, TextRecord, WholeRecord, OptionalRecord, StringField, IntField, ScoreField, SegmentsField,
         VerdictField, EvaluationField, CreateTimeField, SegmentsPayload, EvaluationPayload, CreateTimePayload;
    TextIsWritten(1, 10, j.sessionId);
    TextIsWritten(2, 18, j.uploadKey);
    WholeIsWritten(3, 24, j.status);
    JobTailIsWritten(j);
    var r1, r2, r3 := TextRecord(1, j.sessionId), TextRecord(2, j.uploadKey), WholeRecord(3, j.status);
    var r4 := OptionalRecord(4, if j.score.Some? then Some(Fixed64(j.score.value)) else None);
    var r5 := OptionalRecord(5, SegmentsPayload(j.segments));
    var r6 := OptionalRecord(6, if j.verdict.Some? then Some(Delim(j.verdict.value)) else None);
    var r7 := OptionalRecord(7, EvaluationPayload(j.evaluation));
    var r8 := OptionalRecord(8, CreateTimePayload(j.createTime));
    WrittenAppend(r1, r2);
    WrittenAppend(r1 + r2, r3);
    WrittenAppend(r1 + r2 + r3, r4);
    WrittenAppend(r1 + r2 + r3 + r4, r5);
    WrittenAppend(r1 + r2 + r3 + r4 + r5, r6);
    WrittenAppend(r1 + r2 + r3 + r4 + r5 + r6, r7);
    WrittenAppend(r1 + r2 + r3 + r4 + r5 + r6 + r7, r8);
  }

  /** The response carries the job as its field 1. */
  lemma {:induction false} ResponseIsWritten(job: Option<Msg>)
    requires job.Some? ==> job.value.JobMsg? && JobFits(job.value)
    ensures EncodeResponse(job) ==
      Written(OptionalRecord(1, if job.Some? then Some(Delim(Written(JobRecords(job.value)))) else None))
  {
    hide Written, EncodeJob, JobRecords, JobFits, OptionalRecord;
    if job.Some? { JobIsWritten(job.value); }
    OptionalIsWritten(1, 10, if job.Some? then Some(Delim(Written(JobRecords(job.value)))) else None);
  }

  // ---------------------------------------------------------------- in plain bytes

  /** The bytes other implementations of the schema exchange for a value. */
  lemma {:induction false} ValueBytes(v: Json)
    ensures EncodeValue(Null) == [0x08, 0x00]
    ensures EncodeValue(Bool(false)) == [0x20, 0x00] && EncodeValue(Bool(true)) == [0x20, 0x01]
    ensures v.Number? ==> EncodeValue(v) == [0x11] + v.bits
    ensures v.Str? && |v.text| < 128 ==> EncodeValue(v) == [0x1A, |v.text|] + v.text
    ensures v.Obj? && |EncodeFields(v.fields)| < 128 ==>
      EncodeValue(v) == [0x2A, |EncodeFields(v.fields)|] + EncodeFields(v.fields)
    ensures v.Arr? && |EncodeItems(v.items)| < 128 ==>
      EncodeValue(v) == [0x32, |EncodeItems(v.items)|] + EncodeItems(v.items)
  {
    hide EncodeFields, EncodeItems, Delimited;
    match v
    case Str(text) => if |text| < 128 { ShortDelimited(0x1A, text); }
    case Obj(fields) => if |EncodeFields(fields)| < 128 { ShortDelimited(0x2A, EncodeFields(fields)); }
    case Arr(items) => if |EncodeItems(items)| < 128 { ShortDelimited(0x32, EncodeItems(items)); }
    case _ =>
  }

  lemma ShortDelimited(tag: Byte, payload: Bytes)
    requires |payload| < 128
    ensures [tag] + Delimited(payload) == [tag, |payload|] + payload
  {
  }

  /** And what those bytes mean when they are read. */
  lemma {:induction false} BytesOfValue(bits: Double)
    ensures Message(ValueK, [0x08, 0x00], 2, 0) == Ok(ValueMsg(Some(0), None, None, None, None, None), [])
    ensures Message(ValueK, [0x20, 0x00], 2, 0) == Ok(ValueMsg(None, None, None, Some(false), None, None), [])
    ensures Message(ValueK, [0x20, 0x01], 2, 0) == Ok(ValueMsg(None, None, None, Some(true), None, None), [])
    ensures Message(ValueK, [0x11] + bits, 9, 0) == Ok(ValueMsg(None, Some(bits), None, None, None, None), [])
  {
    hide Message;
    assert [0x08] + EncodeVarint(0) == [0x08, 0x00];
    assert [0x20] + EncodeVarint(0) == [0x20, 0x00];
    assert [0x20] + EncodeVarint(1) == [0x20, 0x01];
    OneRecord(ValueK, 1, Varint(0), 8);
    OneRecord(ValueK, 4, Varint(0), 32);
    OneRecord(ValueK, 4, Varint(1), 32);
    OneRecord(ValueK, 2, Fixed64(bits), 17);
  }

  lemma {:induction false} OneRecord(kind: Kind, number: nat, payload: Payload, tag: Byte)
    requires IsRecord(Record(number, payload)) && tag < 128 && tag == 8 * number + WireType(payload)
    requires Store(Base(kind), Record(number, payload), 1).Some?
    ensures var wire := [tag] + PayloadBytes(payload);
      Message(kind, wire, |wire|, 0) == Ok(Store(Base(kind), Record(number, payload), 1).value, [])
  {
    hide Message, Store, Loop;
    var r := Record(number, payload);
    WrittenOne(number, payload, tag);
    assert [r][1..] == [];
    MessageStoresAll(kind, [r], [], 0);
    assert Written([r]) + [] == Written([r]);
  }
}
