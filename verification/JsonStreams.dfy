/** The decoders as they run: one shared cursor and one depth counter, restored on every exit; and
    the encoders as they run: a writer whose nested messages are forked and joined. */
module JsonStreams {
  import opened Common
  import opened Wire
  import opened JsonCodec

  /** A call that may throw. */
  datatype Outcome<+T> = Returned(value: T) | Thrown(error: DecodeError)

  /** The call did what the read describes: same value and bytes left, or same error. */
  predicate Matches<T(==)>(o: Outcome<T>, r: Read<T>, left: Bytes) {
    match r
    case Ok(v, rest) => o == Returned(v) && left == rest
    case Err(e) => o == Thrown(e)
  }

  // ---------------------------------------------------------------- reads leave a suffix

  predicate IsSuffix(rest: Bytes, s: Bytes) {
    |rest| <= |s| && rest == s[|s| - |rest|..]
  }

  lemma {:induction false} VarintLeavesSuffix(s: Bytes, budget: nat)
    ensures var r := ReadVarint(s, budget); r.Ok? ==> IsSuffix(r.rest, s)
  {
    if budget > 0 && s != [] && s[0] >= 128 {
      VarintLeavesSuffix(s[1..], budget - 1);
    }
  }

  lemma PayloadLeavesSuffix(s: Bytes)
    ensures var r := ReadUInt32(s); r.Ok? ==> IsSuffix(r.rest, s)
    ensures var r := ReadBytes(s); r.Ok? ==> IsSuffix(r.rest, s)
  {
    VarintLeavesSuffix(s, MAX_VARINT_BYTES);
  }

  lemma {:induction false} SkipLeavesSuffix(s: Bytes, wireType: nat)
    ensures var r := Skip(s, wireType); r.Ok? ==> IsSuffix(r.rest, s)
    decreases |s|, 1
  {
    VarintLeavesSuffix(s, MAX_VARINT_BYTES);
    PayloadLeavesSuffix(s);
    if wireType == 3 { GroupLeavesSuffix(s); }
  }

  lemma {:induction false} GroupLeavesSuffix(s: Bytes)
    ensures var r := SkipGroup(s); r.Ok? ==> IsSuffix(r.rest, s)
    decreases |s|, 0
  {
    PayloadLeavesSuffix(s);
    var tag := ReadUInt32(s);
    if tag.Ok? && tag.value % 8 != 4 {
      SkipLeavesSuffix(tag.rest, tag.value % 8);
      var skipped := Skip(tag.rest, tag.value % 8);
      if skipped.Ok? {
        GroupLeavesSuffix(skipped.rest);
      }
    }
  }

  lemma ScalarLeavesSuffix(m: Msg, tag: nat, s: Bytes)
    requires IsScalar(KindOf(m), tag)
    ensures var r := ReadScalar(m, tag, s); r.Ok? ==> IsSuffix(r.rest, s)
  {
    VarintLeavesSuffix(s, MAX_VARINT_BYTES);
    PayloadLeavesSuffix(s);
  }

  // ---------------------------------------------------------------- reading

  class BinaryReader {
    const buf: Bytes
    var pos: nat
    var depth: nat

    ghost predicate Valid()
      reads this
    {
      pos <= |buf|
    }

    ghost function Left(): Bytes
      requires Valid()
      reads this
    {
      buf[pos..]
    }

    constructor (bytes: Bytes)
      ensures Valid() && buf == bytes && Left() == bytes && depth == 0
    {
      buf, pos, depth := bytes, 0, 0;
    }

    /** Moves the cursor behind what a primitive consumed. */
    method Consume<T(==)>(r: Read<T>) returns (o: Outcome<T>)
      requires Valid() && (r.Ok? ==> IsSuffix(r.rest, Left()))
      modifies this`pos
      ensures Valid() && Matches(o, r, Left())
    {
      match r {
        case Ok(v, rest) =>
          pos := |buf| - |rest|;
          o := Returned(v);
        case Err(e) =>
          o := Thrown(e);
      }
    }

    method UInt32() returns (o: Outcome<nat>)
      requires Valid()
      modifies this`pos
      ensures Valid() && Matches(o, ReadUInt32(old(Left())), Left())
    {
      PayloadLeavesSuffix(Left());
      o := Consume(ReadUInt32(buf[pos..]));
    }

    method SkipField(wireType: nat) returns (o: Outcome<Bytes>)
      requires Valid()
      modifies this`pos
      ensures Valid() && Matches(o, Skip(old(Left()), wireType), Left())
    {
      SkipLeavesSuffix(Left(), wireType);
      o := Consume(Skip(buf[pos..], wireType));
    }

    /** `decode`: the depth counter goes up for the nested decoders and is put back on every exit,
        thrown errors included. */
    method Decode(kind: Kind, length: Option<nat>) returns (o: Outcome<Msg>)
      requires Valid()
      modifies this
      ensures Valid() && depth == old(depth)
      ensures var s := old(Left());
        Matches(o, Message(kind, s, if length.Some? then length.value else |s|, old(depth)), Left())
      decreases |buf| - pos, 1
    {
      hide Loop;
      var previousRecursionDepth := depth;
      if previousRecursionDepth >= MAX_DEPTH {
        return Thrown(RecursionLimit);
      }
      depth := previousRecursionDepth + 1;
      o := DecodeFields(kind, if length.Some? then pos + length.value else |buf|);
      depth := previousRecursionDepth;
    }

    /** The body of `decode`: one field after another until the cursor reaches `end`. */
    method DecodeFields(kind: Kind, end: nat) returns (o: Outcome<Msg>)
      requires Valid()
      modifies this
      ensures Valid() && depth == old(depth)
      ensures match Loop(old(Left()), |buf| - end, old(depth), Base(kind))
        case Ok(e, rest) => o == Returned(e.msg) && Left() == rest
        case Err(e) => o == Thrown(e)
      decreases |buf| - pos, 0
    {
      hide Message, ReadField, Skip;
      var message := Base(kind);
      ghost var target := Loop(Left(), |buf| - end, depth, message);
      while pos < end
        invariant Valid() && depth == old(depth) && old(pos) <= pos
        invariant Loop(Left(), |buf| - end, depth, message) == target
        invariant KindOf(message) == kind
        decreases |buf| - pos
      {
        var tag := UInt32();
        if tag.Thrown? {
          return Thrown(tag.error);
        }
        if Nested(kind, tag.value).Some? || IsScalar(kind, tag.value) {
          var stored := DecodeField(message, tag.value);
          if stored.Thrown? {
            return stored;
          }
          message := stored.value;
          continue;
        }
        if tag.value % 8 == 4 || tag.value == 0 {
          break;
        }
        var skipped := SkipField(tag.value % 8);
        if skipped.Thrown? {
          return Thrown(skipped.error);
        }
      }
      return Returned(message);
    }

    /** One case of the field switch. */
    method DecodeField(message: Msg, tag: nat) returns (o: Outcome<Msg>)
      requires Valid()
      requires Nested(KindOf(message), tag).Some? || IsScalar(KindOf(message), tag)
      modifies this
      ensures Valid() && depth == old(depth)
      ensures Matches(o, ReadField(message, tag, old(Left()), old(depth)), Left())
      decreases |buf| - pos, 2
    {
      hide Loop, ReadScalar, Absorb;
      match Nested(KindOf(message), tag) {
        case None =>
          ScalarLeavesSuffix(message, tag, Left());
          o := Consume(ReadScalar(message, tag, buf[pos..]));
        case Some(kind) =>
          var len := UInt32();
          if len.Thrown? {
            return Thrown(len.error);
          }
          var sub := Decode(kind, Some(len.value));
          if sub.Thrown? {
            return sub;
          }
          return Returned(Absorb(message, tag, sub.value));
      }
    }
  }

  // ---------------------------------------------------------------- writing

  class BinaryWriter {
    var buf: Bytes
    var stack: seq<Bytes>

    constructor ()
      ensures buf == [] && stack == []
    {
      buf, stack := [], [];
    }

    method Raw(bytes: Bytes)
      modifies this`buf
      ensures buf == old(buf) + bytes
    {
      buf := buf + bytes;
    }

    method Fork()
      modifies this
      ensures buf == [] && stack == old(stack) + [old(buf)]
    {
      stack := stack + [buf];
      buf := [];
    }

    /** Ends a fork: its bytes go behind their length, which must fit 32 bits. */
    method Join() returns (ok: bool)
      requires |stack| > 0
      modifies this
      ensures ok <==> |old(buf)| < TWO_32
      ensures stack == old(stack)[..|old(stack)| - 1]
      ensures ok ==> buf == old(stack)[|old(stack)| - 1] + Delimited(old(buf))
    {
      var chunk := buf;
      buf := stack[|stack| - 1];
      stack := stack[..|stack| - 1];
      if |chunk| >= TWO_32 {
        return false;
      }
      buf := buf + EncodeVarint(|chunk|) + chunk;
      return true;
    }

    method String(text: Bytes) returns (ok: bool)
      modifies this`buf
      ensures ok <==> |text| < TWO_32
      ensures ok ==> buf == old(buf) + Delimited(text)
    {
      if |text| >= TWO_32 {
        return false;
      }
      buf := buf + EncodeVarint(|text|) + text;
      return true;
    }

    /** A tag and a payload that cannot fail. */
    method Scalar(tag: Byte, payload: Bytes)
      modifies this`buf
      ensures buf == old(buf) + ([tag] + payload)
    {
      Raw([tag]);
      Raw(payload);
      assert buf == old(buf) + ([tag] + payload);
    }

    method StringField(tag: Byte, text: Bytes) returns (ok: bool)
      modifies this`buf
      ensures ok <==> |text| < TWO_32
      ensures ok ==> buf == old(buf) + ([tag] + Delimited(text))
    {
      Raw([tag]);
      ok := String(text);
      assert ok ==> buf == old(buf) + ([tag] + Delimited(text));
    }

    /** `Value.encode` of a wrapped value. The writer throws exactly when some length does not fit. */
    method WriteValue(v: Json) returns (ok: bool)
      modifies this
      ensures ok <==> ValueFits(v)
      ensures ok ==> buf == old(buf) + EncodeValue(v) && stack == old(stack)
      decreases v, 0
    {
      hide EncodeFields, EncodeItems, FieldsFit, ItemsFit, EncodeVarint, Delimited;
      ok := true;
      match v {
        case Undefined =>
        case Null => Scalar(8, EncodeInt(0));
        case Number(bits) => Scalar(17, bits);
        case Str(text) => ok := StringField(26, text);
        case Bool(flag) => Scalar(32, EncodeVarint(if flag then 1 else 0));
        case Obj(fields) => ok := NestedStruct(42, fields);
        case Arr(items) => ok := NestedList(50, items);
      }
    }

    /** `Struct.encode` into a fork that is then joined. */
    method NestedStruct(tag: Byte, fields: seq<Field>) returns (ok: bool)
      modifies this
      ensures ok <==> |EncodeFields(fields)| < TWO_32 && FieldsFit(fields)
      ensures ok ==> buf == old(buf) + ([tag] + Delimited(EncodeFields(fields))) && stack == old(stack)
      decreases fields, 1
    {
      hide EncodeFields, FieldsFit, Delimited;
      Raw([tag]);
      Fork();
      ok := WriteStruct(fields);
      if ok {
        assert buf == EncodeFields(fields);
        ok := Join();
        assert ok ==> buf == old(buf) + ([tag] + Delimited(EncodeFields(fields)));
      }
    }

    method NestedList(tag: Byte, items: seq<Json>) returns (ok: bool)
      modifies this
      ensures ok <==> |EncodeItems(items)| < TWO_32 && ItemsFit(items)
      ensures ok ==> buf == old(buf) + ([tag] + Delimited(EncodeItems(items))) && stack == old(stack)
      decreases items, 1
    {
      hide EncodeItems, ItemsFit, Delimited;
      Raw([tag]);
      Fork();
      ok := WriteList(items);
      if ok {
        assert buf == EncodeItems(items);
        ok := Join();
        assert ok ==> buf == old(buf) + ([tag] + Delimited(EncodeItems(items)));
      }
    }

    method NestedValue(tag: Byte, v: Json) returns (ok: bool)
      modifies this
      ensures ok <==> |EncodeValue(v)| < TWO_32 && ValueFits(v)
      ensures ok ==> buf == old(buf) + ([tag] + Delimited(EncodeValue(v))) && stack == old(stack)
      decreases v, 1
    {
      hide EncodeValue, ValueFits, Delimited;
      Raw([tag]);
      Fork();
      ok := WriteValue(v);
      if ok {
        assert buf == EncodeValue(v);
        ok := Join();
        assert ok ==> buf == old(buf) + ([tag] + Delimited(EncodeValue(v)));
      }
    }

    method NestedEntry(tag: Byte, f: Field) returns (ok: bool)
      modifies this
      ensures ok <==> EntryFits(f)
      ensures ok ==> buf == old(buf) + ([tag] + Delimited(EncodeEntry(f))) && stack == old(stack)
      decreases f, 1
    {
      hide EncodeEntry, Delimited;
      Raw([tag]);
      Fork();
      ok := WriteEntry(f);
      if ok {
        assert buf == EncodeEntry(f);
        ok := Join();
        assert ok ==> buf == old(buf) + ([tag] + Delimited(EncodeEntry(f)));
      }
    }

    /** `Struct.encode`: one entry per property that is not undefined. */
    method WriteStruct(fields: seq<Field>) returns (ok: bool)
      modifies this
      ensures ok <==> FieldsFit(fields)
      ensures ok ==> buf == old(buf) + EncodeFields(fields) && stack == old(stack)
      decreases fields, 0
    {
      hide EncodeEntry, EntryFits, Delimited;
      for k := 0 to |fields|
        invariant buf + EncodeFields(fields[k..]) == old(buf) + EncodeFields(fields)
        invariant FieldsFit(fields[k..]) == FieldsFit(fields)
        invariant stack == old(stack)
      {
        assert fields[k..][0] == fields[k] && fields[k..][1..] == fields[k + 1..];
        if fields[k].value != Undefined {
          var fits := NestedEntry(10, fields[k]);
          if !fits {
            return false;
          }
        }
      }
      return true;
    }

    /** `Struct_FieldsEntry.encode`: an empty key is elided. */
    method WriteEntry(f: Field) returns (ok: bool)
      modifies this
      ensures ok <==> EntryPartsFit(f)
      ensures ok ==> buf == old(buf) + EncodeEntry(f) && stack == old(stack)
      decreases f, 0
    {
      hide EncodeValue, ValueFits, Delimited;
      if f.key != [] {
        ok := StringField(10, f.key);
        if !ok {
          return;
        }
      }
      if f.value != Undefined {
        ok := NestedValue(18, f.value);
        if !ok {
          return;
        }
      } else {
        UndefinedIsEmpty();
      }
      ok := true;
    }

    lemma UndefinedIsEmpty()
      ensures EncodeValue(Undefined) == [] && ValueFits(Undefined)
    {
    }

    /** `ListValue.encode`: one value after another. */
    method WriteList(items: seq<Json>) returns (ok: bool)
      modifies this
      ensures ok <==> ItemsFit(items)
      ensures ok ==> buf == old(buf) + EncodeItems(items) && stack == old(stack)
      decreases items, 0
    {
      hide EncodeValue, ValueFits, Delimited;
      for k := 0 to |items|
        invariant buf + EncodeItems(items[k..]) == old(buf) + EncodeItems(items)
        invariant ItemsFit(items[k..]) == ItemsFit(items)
        invariant stack == old(stack)
      {
        assert items[k..][0] == items[k] && items[k..][1..] == items[k + 1..];
        var fits := NestedValue(10, items[k]);
        if !fits {
          return false;
        }
      }
      return true;
    }
  }

  /** The lengths inside an entry fit. */
  predicate EntryPartsFit(f: Field) {
    |f.key| < TWO_32 && |EncodeValue(f.value)| < TWO_32 && ValueFits(f.value)
  }
}
