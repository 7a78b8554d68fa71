/** The scoring job's envelope: the timestamp, the job and the response that carries it. */
module JobCodec {
  import opened Common
  import opened Wire
  import opened JsonCodec
  import opened JsonRoundTrip

  // ---------------------------------------------------------------- encoding

  /** A string field, elided when it is empty. */
  function StringField(tag: Byte, text: Bytes): Bytes {
    if text == [] then [] else [tag] + Delimited(text)
  }

  /** An integer field, elided when it is zero. */
  function IntField(tag: Byte, v: int): Bytes
    requires IsInt64(v)
  {
    if v == 0 then [] else [tag] + EncodeInt(v)
  }

  function EncodeTimestamp(seconds: int, nanos: int): Bytes
    requires IsInt64(seconds) && IsInt64(nanos)
  {
    IntField(8, seconds) + IntField(16, nanos)
  }

  function DateSeconds(d: Date): (s: int)
    ensures DateFits(d) ==> -MAX_SAFE_INTEGER <= s <= MAX_SAFE_INTEGER
  {
    if d.At? then Quot(d.ms, 1000) else 0
  }

  function DateNanos(d: Date): (n: int)
    ensures IsInt32(n)
  {
    if d.At? then Rem(d.ms, 1000) * 1_000_000 else 0
  }

  /** The dates the encoder accepts: the invalid date has no integer to write. */
  predicate DateFits(d: Date) {
    d.At? && -MAX_DATE_MS <= d.ms <= MAX_DATE_MS
  }

  function ScoreField(score: Option<Double>): Bytes {
    match score case None => [] case Some(d) => [33] + d
  }

  function SegmentsField(segments: Option<seq<Json>>): Bytes {
    match segments case None => [] case Some(items) => [42] + Delimited(EncodeItems(items))
  }

  function VerdictField(verdict: Option<Bytes>): Bytes {
    match verdict case None => [] case Some(text) => [50] + Delimited(text)
  }

  function EvaluationField(evaluation: Option<seq<Field>>): Bytes {
    match evaluation case None => [] case Some(fields) => [58] + Delimited(EncodeFields(fields))
  }

  function CreateTimeField(date: Option<Date>): Bytes
    requires date.Some? ==> DateFits(date.value)
  {
    match date case None => [] case Some(d) => [66] + Delimited(EncodeTimestamp(DateSeconds(d), DateNanos(d)))
  }

  /** What the writer accepts; everything else makes it throw. */
  predicate JobFits(j: Msg)
    requires j.JobMsg?
  {
    && |j.sessionId| < TWO_32 && |j.uploadKey| < TWO_32 && IsInt32(j.status)
    && (j.segments.Some? ==> |EncodeItems(j.segments.value)| < TWO_32 && ItemsFit(j.segments.value))
    && (j.verdict.Some? ==> |j.verdict.value| < TWO_32)
    && (j.evaluation.Some? ==> |EncodeFields(j.evaluation.value)| < TWO_32 && FieldsFit(j.evaluation.value))
    && (j.createTime.Some? ==> DateFits(j.createTime.value))
  }

  function EncodeJob(j: Msg): Bytes
    requires j.JobMsg? && JobFits(j)
  {
    StringField(10, j.sessionId) + StringField(18, j.uploadKey) + IntField(24, j.status) + ScoreField(j.score)
    + SegmentsField(j.segments) + VerdictField(j.verdict) + EvaluationField(j.evaluation)
    + CreateTimeField(j.createTime)
  }

  function EncodeResponse(job: Option<Msg>): Bytes
    requires job.Some? ==> job.value.JobMsg? && JobFits(job.value)
  {
    match job case None => [] case Some(j) => [10] + Delimited(EncodeJob(j))
  }

  // ---------------------------------------------------------------- nesting and meaning

  function SegmentsNeed(segments: Option<seq<Json>>): nat {
    match segments case None => 0 case Some(items) => 1 + ItemsNeed(items)
  }

  function EvaluationNeed(evaluation: Option<seq<Field>>): nat {
    match evaluation case None => 0 case Some(fields) => 1 + FieldsNeed(fields)
  }

  function JobNeed(j: Msg): nat
    requires j.JobMsg?
  {
    1 + Larger(Larger(SegmentsNeed(j.segments), EvaluationNeed(j.evaluation)), if j.createTime.Some? then 1 else 0)
  }

  function CleanSegments(segments: Option<seq<Json>>): Option<seq<Json>> {
    match segments case None => None case Some(items) => Some(CleanItems(items))
  }

  function CleanEvaluation(evaluation: Option<seq<Field>>): Option<seq<Field>> {
    match evaluation case None => None case Some(fields) => Some(PutAll([], CleanFields(fields)))
  }

  function CleanJob(j: Msg): Msg
    requires j.JobMsg?
  {
    j.(segments := CleanSegments(j.segments), evaluation := CleanEvaluation(j.evaluation))
  }

  ghost predicate JobIsTree(j: Msg)
    requires j.JobMsg?
  {
    && (j.segments.Some? ==> ItemsAreTrees(j.segments.value))
    && (j.evaluation.Some? ==> FieldsAreTrees(j.evaluation.value) && DistinctKeys(j.evaluation.value))
  }

  // ---------------------------------------------------------------- field by field

  lemma {:induction false} StringFieldRead(tag: Byte, text: Bytes, tail: Bytes, stop: int, depth: nat, m: Msg, m': Msg)
    requires m.JobMsg? && tag in {10, 18} && |text| < TWO_32 && stop <= |tail|
    requires m' == if tag == 10 then m.(sessionId := text) else m.(uploadKey := text)
    requires if tag == 10 then m.sessionId == [] else m.uploadKey == []
    ensures Loop(StringField(tag, text) + tail, stop, depth, m) == Loop(tail, stop, depth, m')
  {
    hide Loop;
    if text == [] {
      assert [] + tail == tail;
    } else {
      DelimitedRoundTrip(text, tail);
      LoopScalar(tag, Delimited(text), tail, stop, depth, m, m');
    }
  }

  lemma {:induction false} StatusRead(v: int, tail: Bytes, stop: int, depth: nat, m: Msg)
    requires m.JobMsg? && m.status == 0 && IsInt32(v) && stop <= |tail|
    ensures Loop(IntField(24, v) + tail, stop, depth, m) == Loop(tail, stop, depth, m.(status := v))
  {
    hide Loop;
    if v == 0 {
      assert [] + tail == tail;
    } else {
      IntRoundTrip(v, tail);
      LoopScalar(24, EncodeInt(v), tail, stop, depth, m, m.(status := v));
    }
  }

  lemma {:induction false} ScoreRead(score: Option<Double>, tail: Bytes, stop: int, depth: nat, m: Msg)
    requires m.JobMsg? && m.score == None && stop <= |tail|
    ensures Loop(ScoreField(score) + tail, stop, depth, m) == Loop(tail, stop, depth, m.(score := score))
  {
    hide Loop;
    match score
    case None => assert [] + tail == tail;
    case Some(d) =>
      assert (d + tail)[..8] == d && (d + tail)[8..] == tail;
      LoopScalar(33, d, tail, stop, depth, m, m.(score := Some(d)));
  }

  lemma {:induction false} VerdictRead(verdict: Option<Bytes>, tail: Bytes, stop: int, depth: nat, m: Msg)
    requires m.JobMsg? && m.verdict == None && stop <= |tail| && (verdict.Some? ==> |verdict.value| < TWO_32)
    ensures Loop(VerdictField(verdict) + tail, stop, depth, m) == Loop(tail, stop, depth, m.(verdict := verdict))
  {
    hide Loop;
    match verdict
    case None => assert [] + tail == tail;
    case Some(text) =>
      DelimitedRoundTrip(text, tail);
      LoopScalar(50, Delimited(text), tail, stop, depth, m, m.(verdict := Some(text)));
  }

  lemma {:induction false} SegmentsRead(segments: Option<seq<Json>>, tail: Bytes, stop: int, depth: nat, m: Msg)
    requires m.JobMsg? && m.segments == None && stop <= |tail| && depth <= MAX_DEPTH
    requires segments.Some? ==> |EncodeItems(segments.value)| < TWO_32 && ItemsFit(segments.value)
    ensures Loop(SegmentsField(segments) + tail, stop, depth, m) ==
      if depth + SegmentsNeed(segments) <= MAX_DEPTH
      then Loop(tail, stop, depth, m.(segments := CleanSegments(segments)))
      else Err(RecursionLimit)
  {
    hide Loop, Message, EncodeItems, ItemsNeed, CleanItems;
    match segments
    case None => assert [] + tail == tail;
    case Some(items) =>
      LoopNested(42, ListK, EncodeItems(items), tail, stop, depth, m);
      ListRoundTrip(items, tail, depth);
  }

  lemma {:induction false} EvaluationRead(evaluation: Option<seq<Field>>, tail: Bytes, stop: int, depth: nat, m: Msg)
    requires m.JobMsg? && m.evaluation == None && stop <= |tail| && depth <= MAX_DEPTH
    requires evaluation.Some? ==> |EncodeFields(evaluation.value)| < TWO_32 && FieldsFit(evaluation.value)
    ensures Loop(EvaluationField(evaluation) + tail, stop, depth, m) ==
      if depth + EvaluationNeed(evaluation) <= MAX_DEPTH
      then Loop(tail, stop, depth, m.(evaluation := CleanEvaluation(evaluation)))
      else Err(RecursionLimit)
  {
    hide Loop, Message, EncodeFields, FieldsNeed, CleanFields, PutAll;
    match evaluation
    case None => assert [] + tail == tail;
    case Some(fields) =>
      LoopNested(58, StructK, EncodeFields(fields), tail, stop, depth, m);
      StructRoundTrip(fields, tail, depth);
  }

  lemma {:induction false} SecondsRead(v: int, tail: Bytes, stop: int, depth: nat)
    requires -MAX_SAFE_INTEGER <= v <= MAX_SAFE_INTEGER && stop <= |tail|
    ensures Loop(IntField(8, v) + tail, stop, depth, TimestampMsg(0, 0)) == Loop(tail, stop, depth, TimestampMsg(v, 0))
  {
    hide Loop;
    if v == 0 {
      assert [] + tail == tail;
    } else {
      IntRoundTrip(v, tail);
      LoopScalar(8, EncodeInt(v), tail, stop, depth, TimestampMsg(0, 0), TimestampMsg(v, 0));
    }
  }

  lemma {:induction false} NanosRead(s: int, v: int, tail: Bytes, stop: int, depth: nat)
    requires IsInt32(v) && stop <= |tail|
    ensures Loop(IntField(16, v) + tail, stop, depth, TimestampMsg(s, 0)) == Loop(tail, stop, depth, TimestampMsg(s, v))
  {
    hide Loop;
    if v == 0 {
      assert [] + tail == tail;
    } else {
      IntRoundTrip(v, tail);
      LoopScalar(16, EncodeInt(v), tail, stop, depth, TimestampMsg(s, 0), TimestampMsg(s, v));
    }
  }

  /** A timestamp message comes back as itself, negative seconds and nanos included. */
  lemma {:induction false} TimestampRoundTrip(seconds: int, nanos: int, rest: Bytes, depth: nat)
    requires -MAX_SAFE_INTEGER <= seconds <= MAX_SAFE_INTEGER && IsInt32(nanos)
    ensures var e := EncodeTimestamp(seconds, nanos);
      Message(TimestampK, e + rest, |e|, depth) ==
        if depth < MAX_DEPTH then Ok(TimestampMsg(seconds, nanos), rest) else Err(RecursionLimit)
  {
    hide Loop, Message, IntField;
    var e := EncodeTimestamp(seconds, nanos);
    MessageUnfold(TimestampK, e, rest, depth);
    assert e + rest == IntField(8, seconds) + (IntField(16, nanos) + rest);
    SecondsRead(seconds, IntField(16, nanos) + rest, |rest|, depth + 1);
    NanosRead(seconds, nanos, rest, |rest|, depth + 1);
    LoopDone(rest, depth + 1, TimestampMsg(seconds, nanos));
  }

  lemma TimestampIsShort(seconds: int, nanos: int)
    requires IsInt64(seconds) && IsInt64(nanos)
    ensures |EncodeTimestamp(seconds, nanos)| < TWO_32
  {
    VarintLength(Unsigned(seconds), 10);
    VarintLength(Unsigned(nanos), 10);
    VarintRange();
  }

  lemma {:induction false} VarintLength(n: nat, k: nat)
    requires k > 0 && n < Pow128(k)
    ensures |EncodeVarint(n)| <= k
  {
    if n >= 128 { VarintLength(n / 128, k - 1); }
  }

  lemma {:induction false} CreateTimeRead(date: Option<Date>, tail: Bytes, stop: int, depth: nat, m: Msg)
    requires m.JobMsg? && m.createTime == None && stop <= |tail| && (date.Some? ==> DateFits(date.value))
    ensures Loop(CreateTimeField(date) + tail, stop, depth, m) ==
      if date == None || depth < MAX_DEPTH then Loop(tail, stop, depth, m.(createTime := date))
      else Err(RecursionLimit)
  {
    hide Loop, Message, EncodeTimestamp;
    match date
    case None => assert [] + tail == tail;
    case Some(d) =>
      var e := EncodeTimestamp(DateSeconds(d), DateNanos(d));
      TimestampIsShort(DateSeconds(d), DateNanos(d));
      LoopNested(66, TimestampK, e, tail, stop, depth, m);
      TimestampRoundTrip(DateSeconds(d), DateNanos(d), tail, depth);
      DateRoundTrip(d.ms);
  }

  // ---------------------------------------------------------------- the envelope

  /** The first four fields of a job are read back whatever follows them. */
  lemma {:induction false} JobHead(j: Msg, tail: Bytes, stop: int, depth: nat)
    requires j.JobMsg? && JobFits(j) && stop <= |tail|
    ensures Loop(StringField(10, j.sessionId) + StringField(18, j.uploadKey) + IntField(24, j.status)
                 + ScoreField(j.score) + tail, stop, depth, Base(JobK))
         == Loop(tail, stop, depth, Base(JobK).(sessionId := j.sessionId, uploadKey := j.uploadKey,
                                                status := j.status, score := j.score))
  {
    hide Loop, StringField, IntField, ScoreField;
    var m0 := Base(JobK);
    var m1 := m0.(sessionId := j.sessionId);
    var m2 := m1.(uploadKey := j.uploadKey);
    var m3 := m2.(status := j.status);
    var t3 := ScoreField(j.score) + tail;
    var t2 := IntField(24, j.status) + t3;
    var t1 := StringField(18, j.uploadKey) + t2;
    StringFieldRead(10, j.sessionId, t1, stop, depth, m0, m1);
    StringFieldRead(18, j.uploadKey, t2, stop, depth, m1, m2);
    StatusRead(j.status, t3, stop, depth, m2);
    ScoreRead(j.score, tail, stop, depth, m3);
    assert StringField(10, j.sessionId) + StringField(18, j.uploadKey) + IntField(24, j.status)
           + ScoreField(j.score) + tail == StringField(10, j.sessionId) + t1;
  }

  /** The last four fields are read back if their nesting fits. */
  lemma {:induction false} JobTail(j: Msg, rest: Bytes, depth: nat, m: Msg)
    requires j.JobMsg? && JobFits(j) && depth <= MAX_DEPTH
    requires m == j.(segments := None, verdict := None, evaluation := None, createTime := None)
    ensures Loop(SegmentsField(j.segments) + VerdictField(j.verdict) + EvaluationField(j.evaluation)
                 + CreateTimeField(j.createTime) + rest, |rest|, depth, m) ==
      if depth - 1 + JobNeed(j) <= MAX_DEPTH then Ok(LoopEnd(CleanJob(j), true), rest) else Err(RecursionLimit)
  {
    hide Loop, SegmentsField, VerdictField, EvaluationField, CreateTimeField, SegmentsNeed, EvaluationNeed,
         CleanSegments, CleanEvaluation;
    var t3 := CreateTimeField(j.createTime) + rest;
    var t2 := EvaluationField(j.evaluation) + t3;
    var t1 := VerdictField(j.verdict) + t2;
    assert SegmentsField(j.segments) + VerdictField(j.verdict) + EvaluationField(j.evaluation)
           + CreateTimeField(j.createTime) + rest == SegmentsField(j.segments) + t1;
    SegmentsRead(j.segments, t1, |rest|, depth, m);
    var m1 := m.(segments := CleanSegments(j.segments));
    VerdictRead(j.verdict, t2, |rest|, depth, m1);
    var m2 := m1.(verdict := j.verdict);
    EvaluationRead(j.evaluation, t3, |rest|, depth, m2);
    var m3 := m2.(evaluation := CleanEvaluation(j.evaluation));
    CreateTimeRead(j.createTime, rest, |rest|, depth, m3);
    LoopDone(rest, depth, CleanJob(j));
  }

  /** A job survives its encoding exactly when the depth limit allows it: elided defaults come back
      as defaults, an absent optional field stays absent and an empty one stays empty, and the date
      keeps its millisecond. */
  lemma {:induction false} JobRoundTrip(j: Msg, rest: Bytes, depth: nat)
    requires j.JobMsg? && JobFits(j)
    ensures Message(JobK, EncodeJob(j) + rest, |EncodeJob(j)|, depth) ==
      if depth + JobNeed(j) <= MAX_DEPTH then Ok(CleanJob(j), rest) else Err(RecursionLimit)
    ensures JobIsTree(j) ==> CleanJob(j) == j
  {
    hide Loop, Message, JobFits, EncodeJob, JobNeed, CleanJob, JobIsTree;
    MessageUnfold(JobK, EncodeJob(j), rest, depth);
    JobNeedPositive(j);
    if depth < MAX_DEPTH {
      JobLoop(j, rest, depth + 1);
    }
    if JobIsTree(j) { JobTreeIsClean(j); }
  }

  lemma JobNeedPositive(j: Msg)
    requires j.JobMsg?
    ensures JobNeed(j) > 0
  {
  }

  lemma {:induction false} JobLoop(j: Msg, rest: Bytes, depth: nat)
    requires j.JobMsg? && JobFits(j) && 0 < depth <= MAX_DEPTH
    ensures Loop(EncodeJob(j) + rest, |rest|, depth, Base(JobK)) ==
      if depth - 1 + JobNeed(j) <= MAX_DEPTH then Ok(LoopEnd(CleanJob(j), true), rest) else Err(RecursionLimit)
  {
    hide Loop, StringField, IntField, ScoreField, SegmentsField, VerdictField, EvaluationField, CreateTimeField,
         JobNeed, CleanJob;
    var tail := SegmentsField(j.segments) + VerdictField(j.verdict) + EvaluationField(j.evaluation)
                + CreateTimeField(j.createTime) + rest;
    assert EncodeJob(j) + rest == StringField(10, j.sessionId) + StringField(18, j.uploadKey)
                                  + IntField(24, j.status) + ScoreField(j.score) + tail;
    JobHead(j, tail, |rest|, depth);
    JobTail(j, rest, depth, j.(segments := None, verdict := None, evaluation := None, createTime := None));
  }

  lemma {:induction false} JobTreeIsClean(j: Msg)
    requires j.JobMsg? && JobIsTree(j)
    ensures CleanJob(j) == j
  {
    if j.segments.Some? { ItemsAreClean(j.segments.value); }
    if j.evaluation.Some? {
      EntriesAreClean(j.evaluation.value);
    }
  }

  /** The response as the client receives it, decoded from depth zero: a job of JSON trees comes
      back unchanged if and only if its nesting, plus one for the response, fits the limit. */
  lemma {:induction false} ResponseRoundTrip(job: Option<Msg>)
    requires job.Some? ==> job.value.JobMsg? && JobFits(job.value) && JobIsTree(job.value)
    requires job.Some? ==> |EncodeJob(job.value)| < TWO_32
    ensures Message(ResponseK, EncodeResponse(job), |EncodeResponse(job)|, 0) ==
      if job == None || 1 + JobNeed(job.value) <= MAX_DEPTH then Ok(ResponseMsg(job), []) else Err(RecursionLimit)
  {
    hide Loop, Message, EncodeJob;
    assert EncodeResponse(job) + [] == EncodeResponse(job);
    MessageUnfold(ResponseK, EncodeResponse(job), [], 0);
    match job
    case None => LoopDone([], 1, ResponseMsg(None));
    case Some(j) =>
      LoopNested(10, JobK, EncodeJob(j), [], 0, 1, Base(ResponseK));
      JobRoundTrip(j, [], 1);
      LoopDone([], 1, ResponseMsg(Some(j)));
  }
}
