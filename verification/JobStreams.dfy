/** Writing a scoring job and its response, and the whole way from one end to the other. */
module JobStreams {
  import opened Common
  import opened Wire
  import opened JsonCodec
  import opened JsonRoundTrip
  import opened JsonStreams
  import opened JobCodec

  method WriteTimestamp(w: BinaryWriter, seconds: int, nanos: int)
    requires IsInt64(seconds) && IsInt64(nanos)
    modifies w
    ensures w.buf == old(w.buf) + EncodeTimestamp(seconds, nanos) && w.stack == old(w.stack)
  {
    if seconds != 0 {
      w.Scalar(8, EncodeInt(seconds));
    }
    if nanos != 0 {
      w.Scalar(16, EncodeInt(nanos));
    }
  }

  /** The timestamp of a date into a fork that is then joined; the invalid date makes it throw. */
  method WriteDate(w: BinaryWriter, tag: Byte, d: Date) returns (ok: bool)
    modifies w
    ensures ok <==> DateFits(d)
    ensures ok ==> w.stack == old(w.stack)
    ensures ok ==> w.buf == old(w.buf) + ([tag] + Delimited(EncodeTimestamp(DateSeconds(d), DateNanos(d))))
  {
    hide EncodeTimestamp, Delimited;
    if d.Invalid? || d.ms < -MAX_DATE_MS || MAX_DATE_MS < d.ms {
      return false;
    }
    w.Raw([tag]);
    w.Fork();
    WriteTimestamp(w, DateSeconds(d), DateNanos(d));
    TimestampIsShort(DateSeconds(d), DateNanos(d));
    assert w.buf == EncodeTimestamp(DateSeconds(d), DateNanos(d));
    ok := w.Join();
    assert w.buf == old(w.buf) + ([tag] + Delimited(EncodeTimestamp(DateSeconds(d), DateNanos(d))));
  }

  /** A string field, elided when it is empty. */
  method WriteString(w: BinaryWriter, tag: Byte, text: Bytes) returns (ok: bool)
    modifies w
    ensures ok <==> |text| < TWO_32
    ensures ok ==> w.buf == old(w.buf) + StringField(tag, text) && w.stack == old(w.stack)
  {
    hide Delimited;
    ok := true;
    if text != [] {
      ok := w.StringField(tag, text);
    }
  }

  /** The status, elided when it is zero. */
  method WriteStatus(w: BinaryWriter, v: int) returns (ok: bool)
    modifies w
    ensures ok <==> IsInt32(v)
    ensures ok ==> w.buf == old(w.buf) + IntField(24, v) && w.stack == old(w.stack)
  {
    if !IsInt32(v) {
      return false;
    }
    if v != 0 {
      w.Scalar(24, EncodeInt(v));
    }
    return true;
  }

  /** The first four fields of a job. */
  method WriteJobHead(w: BinaryWriter, j: Msg) returns (ok: bool)
    requires j.JobMsg?
    modifies w
    ensures ok <==> |j.sessionId| < TWO_32 && |j.uploadKey| < TWO_32 && IsInt32(j.status)
    ensures ok ==> w.stack == old(w.stack)
    ensures ok ==>
      w.buf == old(w.buf) + StringField(10, j.sessionId) + StringField(18, j.uploadKey)
               + IntField(24, j.status) + ScoreField(j.score)
  {
    hide StringField, IntField;
    ok := WriteString(w, 10, j.sessionId);
    if ok {
      ok := WriteString(w, 18, j.uploadKey);
    }
    if ok {
      ok := WriteStatus(w, j.status);
    }
    if ok && j.score.Some? {
      w.Scalar(33, j.score.value);
    }
  }

  method WriteSegments(w: BinaryWriter, segments: Option<seq<Json>>) returns (ok: bool)
    modifies w
    ensures ok <==> (segments.Some? ==> |EncodeItems(segments.value)| < TWO_32 && ItemsFit(segments.value))
    ensures ok ==> w.buf == old(w.buf) + SegmentsField(segments) && w.stack == old(w.stack)
  {
    hide EncodeItems, ItemsFit, Delimited;
    ok := true;
    if segments.Some? {
      ok := w.NestedList(42, segments.value);
    }
  }

  method WriteVerdict(w: BinaryWriter, verdict: Option<Bytes>) returns (ok: bool)
    modifies w
    ensures ok <==> (verdict.Some? ==> |verdict.value| < TWO_32)
    ensures ok ==> w.buf == old(w.buf) + VerdictField(verdict) && w.stack == old(w.stack)
  {
    hide Delimited;
    ok := true;
    if verdict.Some? {
      ok := w.StringField(50, verdict.value);
    }
  }

  method WriteEvaluation(w: BinaryWriter, evaluation: Option<seq<Field>>) returns (ok: bool)
    modifies w
    ensures ok <==> (evaluation.Some? ==> |EncodeFields(evaluation.value)| < TWO_32 && FieldsFit(evaluation.value))
    ensures ok ==> w.buf == old(w.buf) + EvaluationField(evaluation) && w.stack == old(w.stack)
  {
    hide EncodeFields, FieldsFit, Delimited;
    ok := true;
    if evaluation.Some? {
      ok := w.NestedStruct(58, evaluation.value);
    }
  }

  method WriteCreateTime(w: BinaryWriter, date: Option<Date>) returns (ok: bool)
    modifies w
    ensures ok <==> (date.Some? ==> DateFits(date.value))
    ensures ok ==> w.buf == old(w.buf) + CreateTimeField(date) && w.stack == old(w.stack)
  {
    hide EncodeTimestamp, Delimited;
    ok := true;
    if date.Some? {
      ok := WriteDate(w, 66, date.value);
    }
  }

  /** The optional JSON, string and date fields of a job. */
  method WriteJobTail(w: BinaryWriter, j: Msg) returns (ok: bool)
    requires j.JobMsg?
    requires |j.sessionId| < TWO_32 && |j.uploadKey| < TWO_32 && IsInt32(j.status)
    modifies w
    ensures ok <==> JobFits(j)
    ensures ok ==> w.stack == old(w.stack)
    ensures ok ==>
      w.buf == old(w.buf) + SegmentsField(j.segments) + VerdictField(j.verdict)
               + EvaluationField(j.evaluation) + CreateTimeField(j.createTime)
  {
    hide SegmentsField, VerdictField, EvaluationField, CreateTimeField, EncodeItems, ItemsFit, EncodeFields, FieldsFit;
    ok := WriteSegments(w, j.segments);
    if ok {
      ok := WriteVerdict(w, j.verdict);
    }
    if ok {
      ok := WriteEvaluation(w, j.evaluation);
    }
    if ok {
      ok := WriteCreateTime(w, j.createTime);
    }
  }

  /** `ScoringJob.encode`: throws exactly when a length, the status or the date has no wire form. */
  method WriteJob(w: BinaryWriter, j: Msg) returns (ok: bool)
    requires j.JobMsg?
    modifies w
    ensures ok <==> JobFits(j)
    ensures ok ==> w.buf == old(w.buf) + EncodeJob(j) && w.stack == old(w.stack)
  {
    hide StringField, IntField, ScoreField, SegmentsField, VerdictField, EvaluationField, CreateTimeField;
    ok := WriteJobHead(w, j);
    if ok {
      ok := WriteJobTail(w, j);
      assert ok ==> w.buf == old(w.buf) + EncodeJob(j);
    }
  }

  predicate ResponseFits(job: Option<Msg>)
    requires job.Some? ==> job.value.JobMsg?
  {
    job.Some? ==> JobFits(job.value) && |EncodeJob(job.value)| < TWO_32
  }

  method WriteResponse(w: BinaryWriter, job: Option<Msg>) returns (ok: bool)
    requires job.Some? ==> job.value.JobMsg?
    modifies w
    ensures ok <==> ResponseFits(job)
    ensures ok ==> w.buf == old(w.buf) + EncodeResponse(job) && w.stack == old(w.stack)
  {
    hide EncodeJob, JobFits, Delimited;
    ok := true;
    if job.Some? {
      w.Raw([10]);
      w.Fork();
      ok := WriteJob(w, job.value);
      if ok {
        assert w.buf == EncodeJob(job.value);
        ok := w.Join();
        assert ok ==> w.buf == old(w.buf) + ([10] + Delimited(EncodeJob(job.value)));
      }
    }
  }

  /** From the server's writer to the client's reader. The job arrives unchanged exactly when it has
      a wire form and its nesting, plus one for the response, fits the depth limit: a job the server
      could write may still be one the client refuses. */
  method Transfer(job: Option<Msg>) returns (sent: bool, received: Outcome<Msg>)
    requires job.Some? ==> job.value.JobMsg? && JobIsTree(job.value)
    ensures sent <==> ResponseFits(job)
    ensures sent && (job == None || 1 + JobNeed(job.value) <= MAX_DEPTH) ==> received == Returned(ResponseMsg(job))
    ensures sent && job.Some? && 1 + JobNeed(job.value) > MAX_DEPTH ==> received == Thrown(RecursionLimit)
  {
    hide EncodeResponse, Message, JobFits;
    received := Thrown(Truncated);
    var w := new BinaryWriter();
    sent := WriteResponse(w, job);
    if sent {
      assert w.buf == EncodeResponse(job);
      var r := new BinaryReader(w.buf);
      received := r.Decode(ResponseK, None);
      ResponseRoundTrip(job);
    }
  }

  // ---------------------------------------------------------------- jobs that are written and refused

  /** A job whose evaluation is objects nested in one another. */
  function DeepJob(keys: seq<Bytes>): (j: Msg)
    requires keys != []
    ensures j.JobMsg?
  {
    JobMsg([], [], 0, None, None, None, Some(Nest(keys).fields), None)
  }

  lemma {:induction false} DeepJobNeed(keys: seq<Bytes>)
    requires keys != []
    ensures JobIsTree(DeepJob(keys)) && JobNeed(DeepJob(keys)) == 3 * |keys| + 1
  {
    NestNeed(keys);
  }

  /** From the server's response an evaluation nested 32 deep comes back and one nested 33 deep does
      not, whatever the keys. */
  lemma {:induction false} JobNestingLimit(keys: seq<Bytes>)
    requires keys != [] && ResponseFits(Some(DeepJob(keys)))
    ensures var wire := EncodeResponse(Some(DeepJob(keys)));
      Message(ResponseK, wire, |wire|, 0) ==
        if |keys| <= 32 then Ok(ResponseMsg(Some(DeepJob(keys))), []) else Err(RecursionLimit)
  {
    hide Message, EncodeResponse, JobNeed, JobFits, EncodeJob, DeepJob;
    DeepJobNeed(keys);
    ResponseRoundTrip(Some(DeepJob(keys)));
  }

  /** Such jobs exist: under empty keys the writer takes them up to a thousand deep at least. */
  lemma {:induction false} DeepJobFits(keys: seq<Bytes>)
    requires 0 < |keys| <= 1000 && forall k :: 0 <= k < |keys| ==> keys[k] == []
    ensures ResponseFits(Some(DeepJob(keys)))
  {
    hide Nest;
    NestFits(keys);
    NestNeed(keys);
    NestIsObject(keys);
    var fields := Nest(keys).fields;
    assert EncodeValue(Nest(keys)) == [42] + Delimited(EncodeFields(fields));
    assert |EncodeFields(fields)| <= 9002;
    ShortVarint(|EncodeFields(fields)|);
  }

  lemma NestIsObject(keys: seq<Bytes>)
    requires keys != []
    ensures Nest(keys).Obj?
  {
  }

  /** A JSON tree the server writes and the client refuses. */
  lemma {:induction false} WrittenButRefused(keys: seq<Bytes>)
    requires 32 < |keys| <= 1000 && forall k :: 0 <= k < |keys| ==> keys[k] == []
    ensures var job := Some(DeepJob(keys));
      var wire := if ResponseFits(job) then EncodeResponse(job) else [];
      && ResponseFits(job) && JobIsTree(DeepJob(keys)) && 1 + JobNeed(DeepJob(keys)) > MAX_DEPTH
      && Message(ResponseK, wire, |wire|, 0) == Err(RecursionLimit)
  {
    hide Message, EncodeResponse, JobNeed, JobFits, EncodeJob, DeepJob, JobIsTree;
    DeepJobFits(keys);
    DeepJobNeed(keys);
    JobNestingLimit(keys);
  }
}
