/** Decoding what was encoded: dynamic JSON returns exactly when the nesting fits the depth limit. */
module JsonRoundTrip {
  import opened Common
  import opened Wire
  import opened JsonCodec

  // ---------------------------------------------------------------- one field at a time

  lemma TagRead(tag: Byte, tail: Bytes)
    requires tag < 128
    ensures ReadUInt32([tag] + tail) == Ok(tag, tail)
  {
    UInt32RoundTrip(tag, tail);
  }

  /** A nested message in the stream is decoded, stored, and the loop goes on behind it. */
  lemma {:induction false} LoopNested(tag: Byte, kind: Kind, payload: Bytes, rest: Bytes, stop: int, depth: nat, m: Msg)
    requires tag < 128 && Nested(KindOf(m), tag) == Some(kind)
    requires |payload| < TWO_32 && stop <= |rest|
    ensures Loop([tag] + Delimited(payload) + rest, stop, depth, m) ==
      match Message(kind, payload + rest, |payload|, depth)
      case Err(e) => Err(e)
      case Ok(sub, r) => Loop(r, stop, depth, Absorb(m, tag, sub))
  {
    var s := [tag] + Delimited(payload) + rest;
    assert s == [tag] + (Delimited(payload) + rest);
    TagRead(tag, Delimited(payload) + rest);
    DelimitedRoundTrip(payload, rest);
  }

  /** A scalar in the stream is read and the loop goes on behind it. */
  lemma {:induction false} LoopScalar(tag: Byte, payload: Bytes, rest: Bytes, stop: int, depth: nat, m: Msg, m': Msg)
    requires tag < 128 && Nested(KindOf(m), tag) == None && IsScalar(KindOf(m), tag)
    requires ReadScalar(m, tag, payload + rest) == Ok(m', rest) && stop <= |rest|
    ensures Loop([tag] + payload + rest, stop, depth, m) == Loop(rest, stop, depth, m')
  {
    assert [tag] + payload + rest == [tag] + (payload + rest);
    TagRead(tag, payload + rest);
  }

  lemma {:induction false} LoopDone(rest: Bytes, depth: nat, m: Msg)
    ensures Loop(rest, |rest|, depth, m) == Ok(LoopEnd(m, true), rest)
  {
  }

  lemma {:induction false} MessageUnfold(kind: Kind, payload: Bytes, rest: Bytes, depth: nat)
    ensures Message(kind, payload + rest, |payload|, depth) ==
      if depth >= MAX_DEPTH then Err(RecursionLimit)
      else match Loop(payload + rest, |rest|, depth + 1, Base(kind))
        case Ok(end, r) => Ok(end.msg, r)
        case Err(e) => Err(e)
  {
  }

  // ---------------------------------------------------------------- the four JSON messages

  /** `r` is what decoding `v` must give when `depth` decoders are active. */
  ghost predicate ValueResult(r: Read<Msg>, v: Json, rest: Bytes, depth: nat) {
    if depth + ValueNeed(v) <= MAX_DEPTH then
      r.Ok? && r.rest == rest && r.value.ValueMsg? && Unwrap(r.value) == Clean(v)
    else r == Err(RecursionLimit)
  }

  /** The property a scalar value is written to. */
  function ScalarMsg(v: Json): Msg
    requires !v.Obj? && !v.Arr?
  {
    var m := Base(ValueK);
    match v
    case Undefined => m
    case Null => m.(nullValue := Some(0))
    case Number(bits) => m.(numberValue := Some(bits))
    case Str(text) => m.(stringValue := Some(text))
    case Bool(flag) => m.(boolValue := Some(flag))
  }

  lemma {:induction false} ScalarLoop(v: Json, rest: Bytes, depth: nat)
    requires !v.Obj? && !v.Arr? && ValueFits(v)
    ensures Loop(EncodeValue(v) + rest, |rest|, depth, Base(ValueK)) == Loop(rest, |rest|, depth, ScalarMsg(v))
  {
    hide Loop, ReadScalar;
    var m := Base(ValueK);
    ScalarRead(v, rest);
    match v
    case Undefined => assert EncodeValue(v) + rest == rest;
    case Null => LoopScalar(8, EncodeInt(0), rest, |rest|, depth, m, ScalarMsg(v));
    case Number(bits) => LoopScalar(17, bits, rest, |rest|, depth, m, ScalarMsg(v));
    case Str(text) => LoopScalar(26, Delimited(text), rest, |rest|, depth, m, ScalarMsg(v));
    case Bool(flag) =>
      LoopScalar(32, EncodeVarint(if flag then 1 else 0), rest, |rest|, depth, m, ScalarMsg(v));
  }

  lemma {:induction false} ScalarRead(v: Json, rest: Bytes)
    requires !v.Obj? && !v.Arr? && ValueFits(v)
    ensures var m := Base(ValueK);
      match v
      case Null => ReadScalar(m, 8, EncodeInt(0) + rest) == Ok(ScalarMsg(v), rest)
      case Number(bits) => ReadScalar(m, 17, bits + rest) == Ok(ScalarMsg(v), rest)
      case Str(text) => ReadScalar(m, 26, Delimited(text) + rest) == Ok(ScalarMsg(v), rest)
      case Bool(flag) => ReadScalar(m, 32, EncodeVarint(if flag then 1 else 0) + rest) == Ok(ScalarMsg(v), rest)
      case _ => true
  {
    match v
    case Null => IntRoundTrip(0, rest);
    case Number(bits) => assert (bits + rest)[..8] == bits && (bits + rest)[8..] == rest;
    case Str(text) => DelimitedRoundTrip(text, rest);
    case Bool(flag) =>
      VarintRange();
      VarintRoundTrip(if flag then 1 else 0, rest, MAX_VARINT_BYTES);
    case _ =>
  }

  lemma {:induction false} ScalarValue(v: Json, rest: Bytes, depth: nat)
    requires !v.Obj? && !v.Arr? && ValueFits(v)
    ensures ValueResult(Message(ValueK, EncodeValue(v) + rest, |EncodeValue(v)|, depth), v, rest, depth)
  {
    hide Loop, Message, EncodeValue;
    MessageUnfold(ValueK, EncodeValue(v), rest, depth);
    ScalarLoop(v, rest, depth + 1);
    LoopDone(rest, depth + 1, ScalarMsg(v));
  }

  /** A value comes back as itself exactly when the active decoders and its own nesting stay
      within the limit; otherwise decoding fails with the recursion error. */
  lemma {:induction false} ValueRoundTrip(v: Json, rest: Bytes, depth: nat)
    requires ValueFits(v)
    ensures ValueResult(Message(ValueK, EncodeValue(v) + rest, |EncodeValue(v)|, depth), v, rest, depth)
    decreases v, 1
  {
    hide Loop, Message, EncodeValue, ValueResult;
    match v
    case Obj(fields) =>
      if depth + 1 < MAX_DEPTH { FieldsRoundTrip(fields, [], rest, depth + 2); }
      ObjectValue(fields, rest, depth);
    case Arr(items) =>
      if depth + 1 < MAX_DEPTH { ItemsRoundTrip(items, [], rest, depth + 2); }
      ArrayValue(items, rest, depth);
    case _ => ScalarValue(v, rest, depth);
  }

  lemma {:induction false} ObjectValue(fields: seq<Field>, rest: Bytes, depth: nat)
    requires |EncodeFields(fields)| < TWO_32
    requires depth + 1 < MAX_DEPTH ==>
      Loop(EncodeFields(fields) + rest, |rest|, depth + 2, StructMsg([])) ==
      if depth + 2 + FieldsNeed(fields) <= MAX_DEPTH then
        Ok(LoopEnd(StructMsg(PutAll([], CleanFields(fields))), true), rest)
      else Err(RecursionLimit)
    ensures ValueResult(Message(ValueK, EncodeValue(Obj(fields)) + rest, |EncodeValue(Obj(fields))|, depth),
                        Obj(fields), rest, depth)
  {
    hide Loop, Message, EncodeFields, FieldsNeed, CleanFields, PutAll;
    var payload := EncodeFields(fields);
    MessageUnfold(ValueK, EncodeValue(Obj(fields)), rest, depth);
    MessageUnfold(StructK, payload, rest, depth + 1);
    LoopNested(42, StructK, payload, rest, |rest|, depth + 1, Base(ValueK));
    LoopDone(rest, depth + 1, Base(ValueK).(structValue := Some(PutAll([], CleanFields(fields)))));
  }

  lemma {:induction false} ArrayValue(items: seq<Json>, rest: Bytes, depth: nat)
    requires |EncodeItems(items)| < TWO_32
    requires depth + 1 < MAX_DEPTH ==>
      Loop(EncodeItems(items) + rest, |rest|, depth + 2, ListMsg([])) ==
      if depth + 2 + ItemsNeed(items) <= MAX_DEPTH then Ok(LoopEnd(ListMsg([] + CleanItems(items)), true), rest)
      else Err(RecursionLimit)
    ensures ValueResult(Message(ValueK, EncodeValue(Arr(items)) + rest, |EncodeValue(Arr(items))|, depth),
                        Arr(items), rest, depth)
  {
    hide Loop, Message, EncodeItems, ItemsNeed, CleanItems;
    var payload := EncodeItems(items);
    assert [] + CleanItems(items) == CleanItems(items);
    MessageUnfold(ValueK, EncodeValue(Arr(items)), rest, depth);
    MessageUnfold(ListK, payload, rest, depth + 1);
    LoopNested(50, ListK, payload, rest, |rest|, depth + 1, Base(ValueK));
    LoopDone(rest, depth + 1, Base(ValueK).(listValue := Some(CleanItems(items))));
  }

  lemma {:induction false} ItemsRoundTrip(items: seq<Json>, done: seq<Json>, rest: Bytes, depth: nat)
    requires ItemsFit(items) && depth <= MAX_DEPTH
    ensures Loop(EncodeItems(items) + rest, |rest|, depth, ListMsg(done)) ==
      if depth + ItemsNeed(items) <= MAX_DEPTH then Ok(LoopEnd(ListMsg(done + CleanItems(items)), true), rest)
      else Err(RecursionLimit)
    decreases items, 0
  {
    hide Loop, Message;
    if items == [] {
      assert EncodeItems(items) + rest == rest && done + CleanItems(items) == done;
      LoopDone(rest, depth, ListMsg(done));
    } else {
      var v, tail := items[0], EncodeItems(items[1..]) + rest;
      ValueRoundTrip(v, tail, depth);
      ItemStep(v, done, tail, |rest|, depth);
      assert EncodeItems(items) + rest == [10] + Delimited(EncodeValue(v)) + tail;
      if depth + ValueNeed(v) <= MAX_DEPTH {
        ItemsRoundTrip(items[1..], done + [Clean(v)], rest, depth);
        assert done + [Clean(v)] + CleanItems(items[1..]) == done + CleanItems(items);
      }
    }
  }

  /** One element of a list: pushed, or the end of the decoding. */
  lemma {:induction false} ItemStep(v: Json, done: seq<Json>, tail: Bytes, stop: int, depth: nat)
    requires |EncodeValue(v)| < TWO_32 && stop <= |tail|
    requires ValueResult(Message(ValueK, EncodeValue(v) + tail, |EncodeValue(v)|, depth), v, tail, depth)
    ensures Loop([10] + Delimited(EncodeValue(v)) + tail, stop, depth, ListMsg(done)) ==
      if depth + ValueNeed(v) <= MAX_DEPTH then Loop(tail, stop, depth, ListMsg(done + [Clean(v)]))
      else Err(RecursionLimit)
  {
    hide Loop, Message, EncodeValue, Clean, ValueNeed;
    LoopNested(10, ValueK, EncodeValue(v), tail, stop, depth, ListMsg(done));
  }

  lemma {:induction false} EntryRoundTrip(f: Field, rest: Bytes, depth: nat)
    requires f.value != Undefined && EntryFits(f)
    ensures Message(EntryK, EncodeEntry(f) + rest, |EncodeEntry(f)|, depth) ==
      if depth + FieldNeed(f) <= MAX_DEPTH then Ok(EntryMsg(f.key, Clean(f.value)), rest) else Err(RecursionLimit)
    decreases f, 1
  {
    hide Loop, Message, EncodeValue, Clean, ValueNeed, ValueFits;
    var value := [18] + Delimited(EncodeValue(f.value));
    var m := EntryMsg(f.key, Undefined);
    MessageUnfold(EntryK, EncodeEntry(f), rest, depth);
    KeyRead(f.key, value + rest, |rest|, depth + 1);
    assert EncodeEntry(f) + rest == (if f.key == [] then [] else [10] + Delimited(f.key)) + (value + rest);
    LoopNested(18, ValueK, EncodeValue(f.value), rest, |rest|, depth + 1, m);
    ValueRoundTrip(f.value, rest, depth + 1);
    LoopDone(rest, depth + 1, EntryMsg(f.key, Clean(f.value)));
  }

  /** The key of an entry is read, or elided when it is empty. */
  lemma {:induction false} KeyRead(key: Bytes, tail: Bytes, stop: int, depth: nat)
    requires |key| < TWO_32 && stop <= |tail|
    ensures Loop((if key == [] then [] else [10] + Delimited(key)) + tail, stop, depth, Base(EntryK))
         == Loop(tail, stop, depth, EntryMsg(key, Undefined))
  {
    hide Loop;
    if key == [] {
      assert [] + tail == tail;
    } else {
      DelimitedRoundTrip(key, tail);
      LoopScalar(10, Delimited(key), tail, stop, depth, Base(EntryK), EntryMsg(key, Undefined));
    }
  }

  lemma {:induction false} FieldsRoundTrip(fields: seq<Field>, done: seq<Field>, rest: Bytes, depth: nat)
    requires FieldsFit(fields) && depth <= MAX_DEPTH
    ensures Loop(EncodeFields(fields) + rest, |rest|, depth, StructMsg(done)) ==
      if depth + FieldsNeed(fields) <= MAX_DEPTH then
        Ok(LoopEnd(StructMsg(PutAll(done, CleanFields(fields))), true), rest)
      else Err(RecursionLimit)
    decreases fields, 0
  {
    hide Loop, Message;
    if fields == [] {
      assert EncodeFields(fields) + rest == rest;
      LoopDone(rest, depth, StructMsg(done));
    } else if fields[0].value == Undefined {
      assert EncodeFields(fields) == EncodeFields(fields[1..]);
      assert CleanFields(fields) == CleanFields(fields[1..]);
      FieldsRoundTrip(fields[1..], done, rest, depth);
    } else {
      var f, tail := fields[0], EncodeFields(fields[1..]) + rest;
      assert EncodeFields(fields) + rest == [10] + Delimited(EncodeEntry(f)) + tail;
      LoopNested(10, EntryK, EncodeEntry(f), tail, |rest|, depth, StructMsg(done));
      EntryRoundTrip(f, tail, depth);
      if depth + FieldNeed(f) <= MAX_DEPTH {
        CleanIsDefined(f.value);
        FieldsRoundTrip(fields[1..], Put(done, f.key, Clean(f.value)), rest, depth);
        assert CleanFields(fields)[0] == CleanField(f) && CleanFields(fields)[1..] == CleanFields(fields[1..]);
      }
    }
  }

  lemma CleanIsDefined(v: Json)
    requires v != Undefined
    ensures Clean(v) != Undefined
  {
  }

  // ---------------------------------------------------------------- JSON trees are unchanged

  lemma {:induction false} PutAllOfNewKeys(done: seq<Field>, fields: seq<Field>)
    requires DistinctKeys(done + fields)
    ensures PutAll(done, fields) == done + fields
    decreases |fields|
  {
    if fields == [] {
      assert done + fields == done;
    } else {
      var f := fields[0];
      forall k | 0 <= k < |done|
        ensures done[k].key != f.key
      {
        assert (done + fields)[k] == done[k] && (done + fields)[|done|] == f;
      }
      assert done + [f] + fields[1..] == done + fields;
      PutAllOfNewKeys(done + [f], fields[1..]);
    }
  }

  lemma {:induction false} TreeIsClean(v: Json)
    requires IsTree(v)
    ensures Clean(v) == v
    decreases v, 1
  {
    match v
    case Obj(fields) =>
      FieldsAreClean(fields);
      assert [] + fields == fields;
      PutAllOfNewKeys([], fields);
    case Arr(items) => ItemsAreClean(items);
    case _ =>
  }

  lemma {:induction false} FieldIsClean(f: Field)
    requires FieldIsTree(f)
    ensures CleanField(f) == f
    decreases f, 1
  {
    TreeIsClean(f.value);
  }

  lemma {:induction false} FieldsAreClean(fields: seq<Field>)
    requires FieldsAreTrees(fields)
    ensures CleanFields(fields) == fields
    decreases fields, 0
  {
    if fields != [] {
      FieldIsClean(fields[0]);
      FieldsAreClean(fields[1..]);
    }
  }

  lemma {:induction false} ItemsAreClean(items: seq<Json>)
    requires ItemsAreTrees(items)
    ensures CleanItems(items) == items
    decreases items, 0
  {
    if items != [] {
      TreeIsClean(items[0]);
      ItemsAreClean(items[1..]);
    }
  }

  /** For a JSON tree (nulls, empty keys and empty containers included) decoding its encoding
      returns that tree and nothing of what follows, if and only if the depth limit allows it. */
  lemma {:induction false} TreeRoundTrip(v: Json, rest: Bytes, depth: nat)
    requires IsTree(v) && ValueFits(v)
    ensures var r := Message(ValueK, EncodeValue(v) + rest, |EncodeValue(v)|, depth);
      && (r.Ok? <==> depth + ValueNeed(v) <= MAX_DEPTH)
      && (r.Ok? ==> Unwrap(r.value) == v && r.rest == rest)
      && (!r.Ok? ==> r.error == RecursionLimit)
  {
    ValueRoundTrip(v, rest, depth);
    TreeIsClean(v);
  }

  /** The same for a struct and for a list on their own. */
  lemma {:induction false} StructRoundTrip(fields: seq<Field>, rest: Bytes, depth: nat)
    requires FieldsFit(fields)
    ensures Message(StructK, EncodeFields(fields) + rest, |EncodeFields(fields)|, depth) ==
      if depth + 1 + FieldsNeed(fields) <= MAX_DEPTH then Ok(StructMsg(PutAll([], CleanFields(fields))), rest)
      else Err(RecursionLimit)
    ensures FieldsAreTrees(fields) && DistinctKeys(fields) ==> PutAll([], CleanFields(fields)) == fields
  {
    hide Loop, EncodeFields, FieldsFit, FieldsNeed, CleanFields, PutAll, FieldsAreTrees, DistinctKeys;
    if depth < MAX_DEPTH {
      FieldsRoundTrip(fields, [], rest, depth + 1);
    }
    if FieldsAreTrees(fields) && DistinctKeys(fields) {
      EntriesAreClean(fields);
    }
  }

  lemma {:induction false} EntriesAreClean(fields: seq<Field>)
    requires FieldsAreTrees(fields) && DistinctKeys(fields)
    ensures PutAll([], CleanFields(fields)) == fields
  {
    FieldsAreClean(fields);
    assert [] + fields == fields;
    PutAllOfNewKeys([], fields);
  }

  lemma {:induction false} ListRoundTrip(items: seq<Json>, rest: Bytes, depth: nat)
    requires ItemsFit(items)
    ensures Message(ListK, EncodeItems(items) + rest, |EncodeItems(items)|, depth) ==
      if depth + 1 + ItemsNeed(items) <= MAX_DEPTH then Ok(ListMsg(CleanItems(items)), rest)
      else Err(RecursionLimit)
    ensures ItemsAreTrees(items) ==> CleanItems(items) == items
  {
    if depth < MAX_DEPTH {
      ItemsRoundTrip(items, [], rest, depth + 1);
      assert [] + CleanItems(items) == CleanItems(items);
    }
    if ItemsAreTrees(items) {
      ItemsAreClean(items);
    }
  }

  // ---------------------------------------------------------------- what the limit means

  /** `k` objects inside one another, under any keys. */
  function Nest(keys: seq<Bytes>): Json {
    if keys == [] then Null else Obj([Field(keys[0], Nest(keys[1..]))])
  }

  /** An object costs three levels: itself, its entry and the value in it. */
  lemma {:induction false} NestNeed(keys: seq<Bytes>)
    ensures IsTree(Nest(keys)) && ValueNeed(Nest(keys)) == 3 * |keys| + 1
  {
    if keys != [] {
      NestNeed(keys[1..]);
      var f := Field(keys[0], Nest(keys[1..]));
      var fields := [f];
      assert Nest(keys) == Obj(fields);
      assert fields[1..] == [] && FieldsNeed([]) == 0 && FieldsAreTrees([]);
      assert f.value != Undefined && FieldIsTree(f) && FieldsAreTrees(fields) && DistinctKeys(fields);
      assert FieldsNeed(fields) == FieldNeed(f);
    }
  }

  lemma ShortVarint(n: nat)
    requires n < 0x4000
    ensures |EncodeVarint(n)| <= 2
  {
  }

  /** One more object around a short one costs at most nine bytes. */
  lemma {:induction false} WrapIsShort(v: Json)
    requires v != Undefined && ValueFits(v) && |EncodeValue(v)| + 9 < 0x4000
    ensures ValueFits(Obj([Field([], v)])) && |EncodeValue(Obj([Field([], v)]))| <= |EncodeValue(v)| + 9
  {
    var f := Field([], v);
    var fields := [f];
    assert fields[1..] == [] && EncodeFields([]) == [] && FieldsFit([]);
    ShortVarint(|EncodeValue(v)|);
    ShortVarint(|EncodeEntry(f)|);
    ShortVarint(|EncodeFields(fields)|);
  }

  /** Under empty keys a thousand objects nested in one another still have a short wire form. */
  lemma {:induction false} NestFits(keys: seq<Bytes>)
    requires |keys| <= 1000 && forall k :: 0 <= k < |keys| ==> keys[k] == []
    ensures ValueFits(Nest(keys)) && |EncodeValue(Nest(keys))| <= 2 + 9 * |keys|
  {
    if keys == [] {
      ShortVarint(0);
    } else {
      assert forall k :: 0 <= k < |keys[1..]| ==> keys[1..][k] == keys[k + 1];
      NestFits(keys[1..]);
      WrapIsShort(Nest(keys[1..]));
    }
  }

  /** Read on its own, an object nested 33 deep comes back and one nested 34 deep does not, whatever
      the keys. */
  lemma NestingLimit(keys: seq<Bytes>)
    requires ValueFits(Nest(keys))
    ensures Message(ValueK, EncodeValue(Nest(keys)), |EncodeValue(Nest(keys))|, 0).Ok? <==> |keys| <= 33
  {
    NestNeed(keys);
    TreeRoundTrip(Nest(keys), [], 0);
    assert EncodeValue(Nest(keys)) + [] == EncodeValue(Nest(keys));
  }

  /** So there are objects the encoder writes and the decoder refuses. */
  lemma WritableButUnreadable(keys: seq<Bytes>)
    requires 33 < |keys| <= 1000 && forall k :: 0 <= k < |keys| ==> keys[k] == []
    ensures ValueFits(Nest(keys)) && IsTree(Nest(keys))
    ensures Message(ValueK, EncodeValue(Nest(keys)), |EncodeValue(Nest(keys))|, 0) == Err(RecursionLimit)
  {
    hide Message;
    NestFits(keys);
    NestNeed(keys);
    TreeRoundTrip(Nest(keys), [], 0);
    assert EncodeValue(Nest(keys)) + [] == EncodeValue(Nest(keys));
  }
}
