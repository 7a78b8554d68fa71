/** Decoding respects concatenation: joined list encodings append, joined struct encodings merge
    with the later one winning, and unknown fields between records change nothing. */
module JsonConcat {
  import opened Common
  import opened Wire
  import opened JsonCodec
  import opened JsonRoundTrip

  // ---------------------------------------------------------------- locality of the decoders

  lemma ReadScalarLocal(m: Msg, tag: nat, s: Bytes, t: Bytes)
    requires IsScalar(KindOf(m), tag) && ReadScalar(m, tag, s).Ok?
    ensures var r := ReadScalar(m, tag, s); ReadScalar(m, tag, s + t) == Ok(r.value, r.rest + t)
  {
    if ReadBytes(s).Ok? { ReadBytesLocal(s, t); }
    if ReadVarint(s, MAX_VARINT_BYTES).Ok? { ReadVarintLocal(s, t, MAX_VARINT_BYTES); }
    if 8 <= |s| { TakeLocal(s, t, 8); }
  }

  /** A successful decoding does not depend on what follows the bytes it consumed. */
  lemma {:induction false} MessageLocal(kind: Kind, s: Bytes, t: Bytes, len: nat, depth: nat)
    requires Message(kind, s, len, depth).Ok?
    ensures var r := Message(kind, s, len, depth); Message(kind, s + t, len, depth) == Ok(r.value, r.rest + t)
    decreases |s|, 1
  {
    hide Loop;
    LoopLocal(s, t, |s| - len, depth + 1, Base(kind));
  }

  lemma {:induction false} LoopLocal(s: Bytes, t: Bytes, stop: int, depth: nat, m: Msg)
    requires Loop(s, stop, depth, m).Ok?
    ensures var r := Loop(s, stop, depth, m); Loop(s + t, stop + |t|, depth, m) == Ok(r.value, r.rest + t)
    decreases |s|, 0
  {
    if |s| > stop {
      ReadUInt32Local(s, t);
      var tag := ReadUInt32(s);
      if Nested(KindOf(m), tag.value).Some? || IsScalar(KindOf(m), tag.value) {
        ReadFieldLocal(m, tag.value, tag.rest, t, depth);
        var f := ReadField(m, tag.value, tag.rest, depth);
        LoopLocal(f.rest, t, stop, depth, f.value);
      } else if tag.value % 8 != 4 && tag.value != 0 {
        SkipLocal(tag.rest, t, tag.value % 8);
        LoopLocal(Skip(tag.rest, tag.value % 8).rest, t, stop, depth, m);
      }
    }
  }

  lemma {:induction false} ReadFieldLocal(m: Msg, tag: nat, s: Bytes, t: Bytes, depth: nat)
    requires Nested(KindOf(m), tag).Some? || IsScalar(KindOf(m), tag)
    requires ReadField(m, tag, s, depth).Ok?
    ensures var r := ReadField(m, tag, s, depth); ReadField(m, tag, s + t, depth) == Ok(r.value, r.rest + t)
    decreases |s|, 2
  {
    hide Loop, ReadScalar, Absorb;
    match Nested(KindOf(m), tag)
    case None => ReadScalarLocal(m, tag, s, t);
    case Some(kind) =>
      ReadUInt32Local(s, t);
      var len := ReadUInt32(s);
      MessageLocal(kind, len.rest, t, len.value, depth);
  }

  // ---------------------------------------------------------------- joining encodings

  /** `s` is a whole number of fields, none of them the zero or end-group tag that ends a message. */
  predicate Complete(s: Bytes, depth: nat, m: Msg) {
    var r := Loop(s, 0, depth, m);
    r.Ok? && r.value.atEnd && r.rest == []
  }

  /** Behind complete fields the loop goes on as if it had started there with what they stored. */
  lemma {:induction false} LoopAppend(s: Bytes, t: Bytes, stop: int, depth: nat, m: Msg)
    requires Complete(s, depth, m) && stop <= |t|
    ensures Loop(s + t, stop, depth, m) == Loop(t, stop, depth, Loop(s, 0, depth, m).value.msg)
    decreases |s|
  {
    if s == [] {
      assert s + t == t;
    } else {
      ReadUInt32Local(s, t);
      var tag := ReadUInt32(s);
      if Nested(KindOf(m), tag.value).Some? || IsScalar(KindOf(m), tag.value) {
        ReadFieldLocal(m, tag.value, tag.rest, t, depth);
        var f := ReadField(m, tag.value, tag.rest, depth);
        LoopAppend(f.rest, t, stop, depth, f.value);
      } else {
        SkipLocal(tag.rest, t, tag.value % 8);
        LoopAppend(Skip(tag.rest, tag.value % 8).rest, t, stop, depth, m);
      }
    }
  }

  /** What the encoders write is complete wherever the depth limit lets it be decoded. */
  lemma EncodingsAreComplete(items: seq<Json>, fields: seq<Field>, depth: nat)
    ensures ItemsFit(items) && depth + ItemsNeed(items) <= MAX_DEPTH ==>
      Complete(EncodeItems(items), depth, ListMsg([]))
    ensures FieldsFit(fields) && depth + FieldsNeed(fields) <= MAX_DEPTH ==>
      Complete(EncodeFields(fields), depth, StructMsg([]))
  {
    hide Loop;
    assert EncodeItems(items) + [] == EncodeItems(items);
    assert EncodeFields(fields) + [] == EncodeFields(fields);
    if ItemsFit(items) && depth + ItemsNeed(items) <= MAX_DEPTH { ItemsRoundTrip(items, [], [], depth); }
    if FieldsFit(fields) && depth + FieldsNeed(fields) <= MAX_DEPTH { FieldsRoundTrip(fields, [], [], depth); }
  }

  // ---------------------------------------------------------------- unknown fields

  /** One field the decoder of `kind` does not know: an unknown number, or a known number with
      another wire type. */
  predicate IsUnknownField(kind: Kind, u: Bytes) {
    var tag := ReadUInt32(u);
    && tag.Ok?
    && Nested(kind, tag.value) == None && !IsScalar(kind, tag.value)
    && tag.value != 0 && tag.value % 8 != 4
    && var skipped := Skip(tag.rest, tag.value % 8);
    skipped.Ok? && skipped.rest == []
  }

  lemma {:induction false} SkipUnknown(u: Bytes, t: Bytes, stop: int, depth: nat, m: Msg)
    requires IsUnknownField(KindOf(m), u) && stop <= |t|
    ensures Loop(u + t, stop, depth, m) == Loop(t, stop, depth, m)
  {
    ReadUInt32Local(u, t);
    var tag := ReadUInt32(u);
    SkipLocal(tag.rest, t, tag.value % 8);
    assert [] + t == t;
  }

  /** An unknown field after complete fields, whatever follows, leaves the decoded message as it is. */
  lemma UnknownFieldIgnored(kind: Kind, before: Bytes, u: Bytes, after: Bytes, depth: nat)
    requires depth < MAX_DEPTH && Complete(before, depth + 1, Base(kind))
    requires IsUnknownField(kind, u)
    ensures Message(kind, before + u + after, |before + u + after|, depth)
         == Message(kind, before + after, |before + after|, depth)
  {
    hide Loop, IsUnknownField;
    var m := Loop(before, 0, depth + 1, Base(kind)).value.msg;
    assert KindOf(m) == kind;
    assert before + u + after == before + (u + after);
    LoopAppend(before, u + after, 0, depth + 1, Base(kind));
    LoopAppend(before, after, 0, depth + 1, Base(kind));
    SkipUnknown(u, after, 0, depth + 1, m);
  }

  // ---------------------------------------------------------------- lists append

  /** `r` with `done` put in front of the decoded values. */
  function Prepend(done: seq<Json>, r: Read<LoopEnd>): Read<LoopEnd>
    requires r.Ok? ==> r.value.msg.ListMsg?
  {
    match r
    case Ok(end, rest) => Ok(LoopEnd(ListMsg(done + end.msg.values), end.atEnd), rest)
    case Err(e) => Err(e)
  }

  lemma {:induction false} ListLoopPrepends(s: Bytes, stop: int, depth: nat, a: seq<Json>, b: seq<Json>)
    ensures Loop(s, stop, depth, ListMsg(a + b)) == Prepend(a, Loop(s, stop, depth, ListMsg(b)))
    decreases |s|
  {
    if |s| > stop && ReadUInt32(s).Ok? {
      var tag := ReadUInt32(s);
      if tag.value == 10 {
        var f, g := ReadField(ListMsg(b), 10, tag.rest, depth), ReadField(ListMsg(a + b), 10, tag.rest, depth);
        assert f.Err? <==> g.Err?;
        if f.Ok? {
          var v := f.value.values[|b|];
          assert f.value.values == b + [v] && a + (b + [v]) == a + b + [v];
          assert g.value == ListMsg(a + f.value.values);
          ListLoopPrepends(f.rest, stop, depth, a, f.value.values);
        }
      } else if tag.value % 8 != 4 && tag.value != 0 && Skip(tag.rest, tag.value % 8).Ok? {
        ListLoopPrepends(Skip(tag.rest, tag.value % 8).rest, stop, depth, a, b);
      }
    }
  }

  /** A list parsed from two joined encodings is the two lists appended. */
  lemma ListsAppend(e1: Bytes, e2: Bytes, depth: nat)
    requires depth < MAX_DEPTH && Complete(e1, depth + 1, ListMsg([]))
    ensures Message(ListK, e1, |e1|, depth).Ok?
    ensures var first, second := Message(ListK, e1, |e1|, depth).value, Message(ListK, e2, |e2|, depth);
      Message(ListK, e1 + e2, |e1 + e2|, depth) ==
        if second.Ok? then Ok(ListMsg(first.values + second.value.values), second.rest) else second
  {
    hide Loop;
    var a := Loop(e1, 0, depth + 1, ListMsg([])).value.msg.values;
    LoopAppend(e1, e2, 0, depth + 1, ListMsg([]));
    assert a + [] == a;
    ListLoopPrepends(e2, 0, depth + 1, a, []);
  }

  // ---------------------------------------------------------------- structs merge

  function Lookup(fields: seq<Field>, key: Bytes): Json {
    var i := IndexOf(fields, key);
    if i < |fields| then fields[i].value else Undefined
  }

  predicate HasKey(fields: seq<Field>, key: Bytes) {
    IndexOf(fields, key) < |fields|
  }

  lemma IndexIsFirst(fields: seq<Field>, key: Bytes, i: nat)
    requires i < |fields| && fields[i].key == key
    requires forall k :: 0 <= k < i ==> fields[k].key != key
    ensures IndexOf(fields, key) == i
  {
  }

  lemma PutLooksUp(fields: seq<Field>, key: Bytes, value: Json, other: Bytes)
    ensures Lookup(Put(fields, key, value), other) == if other == key then value else Lookup(fields, other)
    ensures HasKey(Put(fields, key, value), other) <==> other == key || HasKey(fields, other)
  {
    hide IndexOf;
    var put := Put(fields, key, value);
    var i, j := IndexOf(fields, key), IndexOf(fields, other);
    if other == key {
      IndexIsFirst(put, key, i);
    } else if j < |fields| {
      IndexIsFirst(put, other, j);
    } else {
      assert forall k :: 0 <= k < |put| ==> put[k].key == if k < |fields| then fields[k].key else key;
    }
  }

  lemma PutKeepsDistinct(fields: seq<Field>, key: Bytes, value: Json)
    requires DistinctKeys(fields)
    ensures DistinctKeys(Put(fields, key, value))
  {
  }

  /** Merging right over left: every key of `more` wins, every other key keeps its value. */
  lemma {:induction false} PutAllIsMerge(fields: seq<Field>, more: seq<Field>, key: Bytes)
    requires DistinctKeys(more)
    ensures Lookup(PutAll(fields, more), key) == if HasKey(more, key) then Lookup(more, key) else Lookup(fields, key)
    ensures HasKey(PutAll(fields, more), key) <==> HasKey(fields, key) || HasKey(more, key)
    decreases |more|
  {
    if more != [] {
      var f, tail := more[0], more[1..];
      PutAllIsMerge(Put(fields, f.key, f.value), tail, key);
      PutLooksUp(fields, f.key, f.value, key);
      if HasKey(tail, key) { assert tail[IndexOf(tail, key)] == more[IndexOf(tail, key) + 1]; }
    }
  }

  lemma PutsCommute(fields: seq<Field>, key: Bytes, value: Json, f: Field)
    requires HasKey(fields, key) && f.key != key
    ensures Put(Put(fields, f.key, f.value), key, value) == Put(Put(fields, key, value), f.key, f.value)
  {
    hide IndexOf;
    var i, j := IndexOf(fields, key), IndexOf(fields, f.key);
    IndexIsFirst(Put(fields, f.key, f.value), key, i);
    if j < |fields| {
      IndexIsFirst(Put(fields, key, value), f.key, j);
    } else {
      PutLooksUp(fields, key, value, f.key);
    }
  }

  lemma {:induction false} PutBeforePutAll(fields: seq<Field>, more: seq<Field>, key: Bytes, value: Json)
    requires HasKey(fields, key) && !HasKey(more, key)
    ensures Put(PutAll(fields, more), key, value) == PutAll(Put(fields, key, value), more)
    decreases |more|
  {
    if more != [] {
      var f := more[0];
      PutsCommute(fields, key, value, f);
      PutLooksUp(fields, f.key, f.value, key);
      PutBeforePutAll(Put(fields, f.key, f.value), more[1..], key, value);
    }
  }

  lemma PutTwice(fields: seq<Field>, key: Bytes, v: Json, w: Json)
    ensures Put(Put(fields, key, v), key, w) == Put(fields, key, w)
  {
    IndexIsFirst(Put(fields, key, v), key, IndexOf(fields, key));
  }

  lemma {:induction false} PutIntoPutAll(fields: seq<Field>, more: seq<Field>, key: Bytes, value: Json)
    requires DistinctKeys(more)
    ensures PutAll(fields, Put(more, key, value)) == Put(PutAll(fields, more), key, value)
    decreases |more|
  {
    if more == [] {
    } else {
      var f, tail, put := more[0], more[1..], Put(more, key, value);
      if f.key == key {
        assert put[0] == Field(key, value) && put[1..] == tail;
        PutLooksUp(fields, key, f.value, key);
        PutBeforePutAll(Put(fields, key, f.value), tail, key, value);
        PutTwice(fields, key, f.value, value);
      } else {
        assert put[0] == f && put[1..] == Put(tail, key, value);
        PutIntoPutAll(Put(fields, f.key, f.value), tail, key, value);
      }
    }
  }

  /** `r` with the decoded entries merged over `done`. */
  function MergeOver(done: seq<Field>, r: Read<LoopEnd>): Read<LoopEnd>
    requires r.Ok? ==> r.value.msg.StructMsg?
  {
    match r
    case Ok(end, rest) => Ok(LoopEnd(StructMsg(PutAll(done, end.msg.fields)), end.atEnd), rest)
    case Err(e) => Err(e)
  }

  lemma {:induction false} StructLoopMerges(s: Bytes, stop: int, depth: nat, a: seq<Field>, b: seq<Field>)
    requires DistinctKeys(b)
    ensures Loop(s, stop, depth, StructMsg(PutAll(a, b))) == MergeOver(a, Loop(s, stop, depth, StructMsg(b)))
    ensures var r := Loop(s, stop, depth, StructMsg(b)); r.Ok? ==> DistinctKeys(r.value.msg.fields)
    decreases |s|
  {
    if |s| > stop && ReadUInt32(s).Ok? {
      var tag := ReadUInt32(s);
      if tag.value == 10 {
        EntryStep(tag.rest, depth, a, b);
        var f := ReadField(StructMsg(b), 10, tag.rest, depth);
        if f.Ok? {
          StructLoopMerges(f.rest, stop, depth, a, f.value.fields);
        }
      } else if tag.value % 8 != 4 && tag.value != 0 && Skip(tag.rest, tag.value % 8).Ok? {
        StructLoopMerges(Skip(tag.rest, tag.value % 8).rest, stop, depth, a, b);
      }
    }
  }

  /** One entry decoded over `b` and over the merge of `a` and `b`. */
  lemma {:induction false} EntryStep(s: Bytes, depth: nat, a: seq<Field>, b: seq<Field>)
    requires DistinctKeys(b)
    ensures var f, g := ReadField(StructMsg(b), 10, s, depth), ReadField(StructMsg(PutAll(a, b)), 10, s, depth);
      if f.Ok? then DistinctKeys(f.value.fields) && g == Ok(StructMsg(PutAll(a, f.value.fields)), f.rest)
      else g == f
  {
    hide Loop, Put, PutAll;
    if ReadUInt32(s).Ok? {
      var len := ReadUInt32(s);
      var e := Message(EntryK, len.rest, len.value, depth);
      if e.Ok? {
        PutKeepsDistinct(b, e.value.key, e.value.value);
        PutIntoPutAll(a, b, e.value.key, e.value.value);
      }
    }
  }

  lemma NothingMerged(a: seq<Field>)
    ensures PutAll(a, []) == a
  {
  }

  /** A struct parsed from two joined encodings is the first with the second merged over it. */
  lemma {:induction false} StructsMerge(e1: Bytes, e2: Bytes, depth: nat)
    requires depth < MAX_DEPTH && Complete(e1, depth + 1, StructMsg([]))
    ensures Message(StructK, e1, |e1|, depth).Ok?
    ensures var first, second := Message(StructK, e1, |e1|, depth).value, Message(StructK, e2, |e2|, depth);
      Message(StructK, e1 + e2, |e1 + e2|, depth) ==
        if second.Ok? then Ok(StructMsg(PutAll(first.fields, second.value.fields)), second.rest) else second
    ensures var second := Message(StructK, e2, |e2|, depth); second.Ok? ==> DistinctKeys(second.value.fields)
  {
    hide Loop, PutAll;
    var a := Loop(e1, 0, depth + 1, StructMsg([])).value.msg.fields;
    LoopAppend(e1, e2, 0, depth + 1, StructMsg([]));
    NothingMerged(a);
    StructLoopMerges(e2, 0, depth + 1, a, []);
  }
}
