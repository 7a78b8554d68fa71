/** The pronunciation score, and its composition with alignment and error rates. Scores are exact
    rationals. */
module Scoring {
  import opened Common
  import opened EditDistance
  import opened Alignments
  import opened ArabicText
  import opened ErrorRates

  datatype PronunciationScore =
    PronunciationScore(accuracy: real, fluency: real, completeness: real, overall: real)

  datatype Word = Word(text: string, confidence: real)

  datatype Result = Result(transcript: string, alignments: seq<Alignment>, wer: real, cer: real,
                           score: PronunciationScore)

  function Clamp(v: real): (c: real)
    ensures 0.0 <= c <= 1.0
    ensures 0.0 <= v <= 1.0 ==> c == v
  {
    if v < 0.0 then 0.0 else if v > 1.0 then 1.0 else v
  }

  function AtLeastOne(n: int): int {
    if n < 1 then 1 else n
  }

  /** The rows that carry a reference word. */
  function RefCount(rows: seq<Alignment>): nat {
    if rows == [] then 0 else RefCount(Init(rows)) + if Last(rows).refWord != "" then 1 else 0
  }

  function Sum(ps: seq<real>): real {
    if ps == [] then 0.0 else Sum(Init(ps)) + Last(ps)
  }

  function Fluency(ps: seq<real>): real {
    if |ps| > 0 then Clamp(Sum(ps) / |ps| as real) else 0.0
  }

  function Accuracy(rows: seq<Alignment>, wer: Option<real>): real {
    match wer
    case Some(w) => Clamp(1.0 - w)
    case None =>
      var m := CountOp(rows, Match);
      Clamp(m as real / AtLeastOne(m + CountOp(rows, Substitute) + CountOp(rows, Delete)) as real)
  }

  function Completeness(rows: seq<Alignment>): real {
    Clamp((RefCount(rows) - CountOp(rows, Delete)) as real / AtLeastOne(RefCount(rows)) as real)
  }

  function ScoreOf(rows: seq<Alignment>, ps: seq<real>, wer: Option<real>): PronunciationScore {
    var accuracy, completeness := Accuracy(rows, wer), Completeness(rows);
    PronunciationScore(accuracy, Fluency(ps), completeness, Clamp((accuracy + completeness) / 2.0))
  }

  method ScorePronunciation(alignments: seq<Alignment>, probabilities: seq<real>, wer: Option<real>)
    returns (score: PronunciationScore)
    ensures score == ScoreOf(alignments, probabilities, wer)
  {
    var refCount, matchCount, subCount, delCount := 0, 0, 0, 0;
    for k := 0 to |alignments|
      invariant refCount == RefCount(alignments[..k])
      invariant matchCount == CountOp(alignments[..k], Match)
      invariant subCount == CountOp(alignments[..k], Substitute)
      invariant delCount == CountOp(alignments[..k], Delete)
    {
      var a := alignments[k];
      assert Init(alignments[..k + 1]) == alignments[..k] && Last(alignments[..k + 1]) == a;
      if a.refWord != "" {
        refCount := refCount + 1;
      }
      match a.op {
        case Match => matchCount := matchCount + 1;
        case Substitute => subCount := subCount + 1;
        case Delete => delCount := delCount + 1;
        case _ =>
      }
    }
    assert alignments[..|alignments|] == alignments;

    var accuracy;
    match wer {
      case Some(w) =>
        accuracy := Clamp(1.0 - w);
      case None =>
        var denom := matchCount + subCount + delCount;
        if denom < 1 {
          denom := 1;
        }
        accuracy := Clamp(matchCount as real / denom as real);
    }
    var completenessDenom := refCount;
    if completenessDenom < 1 {
      completenessDenom := 1;
    }
    var completeness := Clamp((refCount - delCount) as real / completenessDenom as real);

    var fluency := 0.0;
    if |probabilities| > 0 {
      var sum := 0.0;
      for k := 0 to |probabilities|
        invariant sum == Sum(probabilities[..k])
      {
        assert Init(probabilities[..k + 1]) == probabilities[..k];
        sum := sum + probabilities[k];
      }
      assert probabilities[..|probabilities|] == probabilities;
      fluency := Clamp(sum / |probabilities| as real);
    }
    var overall := Clamp((accuracy + completeness) / 2.0);
    return PronunciationScore(accuracy, fluency, completeness, overall);
  }

  /** The confidences of the words that carry one, in order. */
  function Confidences(words: seq<Word>): seq<real> {
    if words == [] then []
    else Confidences(Init(words)) + if Last(words).confidence == 0.0 then [] else [Last(words).confidence]
  }

  method WordConfidences(words: seq<Word>) returns (out: seq<real>)
    ensures out == Confidences(words)
  {
    out := [];
    if |words| == 0 {
      return;
    }
    for k := 0 to |words|
      invariant out == Confidences(words[..k])
    {
      assert Init(words[..k + 1]) == words[..k];
      if words[k].confidence == 0.0 {
        continue;
      }
      out := out + [words[k].confidence];
    }
    assert words[..|words|] == words;
  }

  /** What one recitation scores, given what was said. */
  function Scored(expected: string, transcript: string, words: seq<Word>): Result {
    var ref, hyp := Tokens(expected), Tokens(transcript);
    var refRunes, hypRunes := Runes(expected), Runes(transcript);
    var wer := Rate(Dist(ref, hyp), |ref|, |hyp|);
    Result(transcript, BestRows(ref, hyp), wer, Rate(Dist(refRunes, hypRunes), |refRunes|, |hypRunes|),
           ScoreOf(BestRows(ref, hyp), Confidences(words), Some(wer)))
  }

  /** The tail of the engine's `Score`, after the transcript has arrived. */
  method Score(expectedText: string, transcript: string, words: seq<Word>) returns (result: Result)
    ensures result == Scored(expectedText, transcript, words)
  {
    var alignments := Align(expectedText, transcript);
    var wer := WER(expectedText, transcript);
    var cer := CER(expectedText, transcript);
    var confidences := WordConfidences(words);
    var score := ScorePronunciation(alignments, confidences, Some(wer));
    return Result(transcript, alignments, wer, cer, score);
  }

  // ---------------------------------------------------------------- what the numbers mean

  /** Over a valid alignment of non-empty words, the counters count words of the inputs. */
  lemma {:induction false} CountsOfAlignment(rows: seq<Alignment>, ref: seq<string>, hyp: seq<string>)
    requires Aligns(rows, ref, hyp)
    requires forall k :: 0 <= k < |ref| ==> ref[k] != ""
    ensures RefCount(rows) == |ref|
    ensures CountOp(rows, Match) + CountOp(rows, Substitute) + CountOp(rows, Delete) == |ref|
    ensures CountOp(rows, Match) + CountOp(rows, Substitute) + CountOp(rows, Insert) == |hyp|
    decreases |rows|
  {
    if rows != [] {
      var before := Init(rows);
      assert ValidRow(rows[|rows| - 1]);
      assert forall k :: 0 <= k < |before| ==> before[k] == rows[k];
      var r := RefWords(before);
      assert forall k :: 0 <= k < |r| ==> r[k] == ref[k];
      if Last(rows).op != Insert { assert ref[|ref| - 1] == Last(rows).refWord; }
      CountsOfAlignment(before, r, HypWords(before));
    }
  }

  lemma DivideMonotone(a: int, b: int, n: int)
    requires n > 0 && a <= b
    ensures a as real / n as real <= b as real / n as real
    ensures a as real / n as real == b as real / n as real ==> a == b
  {
    var x, y, z := a as real, b as real, n as real;
    assert (y - x) / z >= 0.0;
    assert (y - x) / z == y / z - x / z;
  }

  lemma {:induction false} CountsOfBestRows(ref: seq<string>, hyp: seq<string>)
    requires forall k :: 0 <= k < |ref| ==> ref[k] != ""
    ensures var rows := BestRows(ref, hyp);
      && RefCount(rows) == |ref|
      && CountOp(rows, Match) + CountOp(rows, Substitute) + CountOp(rows, Delete) == |ref|
      && Dist(ref, hyp) == |ref| - CountOp(rows, Match) + CountOp(rows, Insert)
  {
    hide BestRows, Dist, Aligns;
    BestRowsAreOptimal(ref, hyp);
    BestRowsAreValid(ref, hyp);
    CountsOfAlignment(BestRows(ref, hyp), ref, hyp);
    EditsAreNonMatches(BestRows(ref, hyp));
  }

  lemma OneMinus(d: int, n: int)
    requires n > 0
    ensures 1.0 - d as real / n as real == (n - d) as real / n as real
  {
    var x, z := d as real, n as real;
    assert z / z == 1.0 && (z - x) / z == z / z - x / z;
  }

  lemma {:induction false} AccuracyInCounts(ref: seq<string>, hyp: seq<string>)
    requires ref != [] && forall k :: 0 <= k < |ref| ==> ref[k] != ""
    ensures var rows := BestRows(ref, hyp);
      Accuracy(rows, Some(Rate(Dist(ref, hyp), |ref|, |hyp|)))
      == Clamp((CountOp(rows, Match) - CountOp(rows, Insert)) as real / |ref| as real)
  {
    hide BestRows, Dist, CountOp, RefCount;
    CountsOfBestRows(ref, hyp);
    OneMinus(Dist(ref, hyp), |ref|);
  }

  lemma {:induction false} CompletenessInCounts(ref: seq<string>, hyp: seq<string>)
    requires ref != [] && forall k :: 0 <= k < |ref| ==> ref[k] != ""
    ensures var del := CountOp(BestRows(ref, hyp), Delete);
      del <= |ref| && Completeness(BestRows(ref, hyp)) == (|ref| - del) as real / |ref| as real
  {
    hide BestRows, Dist, CountOp, RefCount;
    CountsOfBestRows(ref, hyp);
    DivideMonotone(0, |ref| - CountOp(BestRows(ref, hyp), Delete), |ref|);
    DivideMonotone(|ref| - CountOp(BestRows(ref, hyp), Delete), |ref|, |ref|);
  }

  /** Against a non-empty reference the score is arithmetic over the alignment's counts. */
  lemma {:induction false} ScoreInCounts(expected: string, transcript: string, words: seq<Word>)
    requires Tokens(expected) != []
    ensures var result := Scored(expected, transcript, words);
      var rows, n := result.alignments, |Tokens(expected)|;
      && result.score.accuracy == Clamp((CountOp(rows, Match) - CountOp(rows, Insert)) as real / n as real)
      && result.score.completeness == (n - CountOp(rows, Delete)) as real / n as real
      && CountOp(rows, Match) + CountOp(rows, Substitute) + CountOp(rows, Delete) == n
  {
    hide BestRows, Dist, Tokens, CountOp, RefCount, Runes, Fluency, Accuracy, Completeness;
    var ref, hyp := Tokens(expected), Tokens(transcript);
    NormalizeThenTokenize(expected);
    assert forall k :: 0 <= k < |ref| ==> IsWord(ref[k]);
    CountsOfBestRows(ref, hyp);
    AccuracyInCounts(ref, hyp);
    CompletenessInCounts(ref, hyp);
  }

  lemma BestRowsAreValid(ref: seq<string>, hyp: seq<string>)
    ensures forall k :: 0 <= k < |BestRows(ref, hyp)| ==> BestRows(ref, hyp)[k].op != Unset
  {
    BestRowsAreOptimal(ref, hyp);
    ValidRowsHaveOps(BestRows(ref, hyp));
  }

  predicate InOrder(s: PronunciationScore) {
    0.0 <= s.accuracy <= s.overall <= s.completeness <= 1.0
  }

  /** 0 <= accuracy <= overall <= completeness <= 1 exactly when one of the two texts has a word:
      with two empty texts the accuracy is 1 and the completeness 0. */
  lemma {:induction false} ScoreOrder(expected: string, transcript: string, words: seq<Word>)
    ensures InOrder(Scored(expected, transcript, words).score)
      <==> Tokens(expected) != [] || Tokens(transcript) != []
  {
    hide Tokens, BestRows, Dist;
    if Tokens(expected) == [] {
      EmptyReferenceScore(expected, transcript, words);
    } else {
      ScoreInCounts(expected, transcript, words);
      hide Scored;
      var rows, n := Scored(expected, transcript, words).alignments, |Tokens(expected)|;
      DivideMonotone(CountOp(rows, Match) - CountOp(rows, Insert), n - CountOp(rows, Delete), n);
      OverallIsMean(expected, transcript, words);
    }
  }

  lemma {:induction false} OverallIsMean(expected: string, transcript: string, words: seq<Word>)
    ensures var s := Scored(expected, transcript, words).score;
      && 0.0 <= s.accuracy <= 1.0 && 0.0 <= s.completeness <= 1.0
      && s.overall == (s.accuracy + s.completeness) / 2.0
  {
    hide Tokens, BestRows, Dist, Runes, Rate, Fluency, RefCount, CountOp;
  }

  lemma {:induction false} EmptyReferenceScore(expected: string, transcript: string, words: seq<Word>)
    requires Tokens(expected) == []
    ensures var s := Scored(expected, transcript, words).score;
      && s.accuracy == (if Tokens(transcript) == [] then 1.0 else 0.0)
      && s.completeness == 0.0 && s.overall == s.accuracy / 2.0
  {
    hide Tokens, BestRows, Dist, Runes, CountOp, RefCount;
    EmptyReference(Tokens(transcript));
    OverallIsMean(expected, transcript, words);
  }

  lemma EmptyReference(hyp: seq<string>)
    ensures RefCount(BestRows([], hyp)) == 0 && CountOp(BestRows([], hyp), Delete) == 0
  {
    BestRowsAreOptimal([], hyp);
    CountsOfAlignment(BestRows([], hyp), [], hyp);
  }

  /** The WER-based accuracy never exceeds the share of matched words. */
  lemma AccuracyBoundedByMatches(expected: string, transcript: string, words: seq<Word>)
    requires Tokens(expected) != []
    ensures var result := Scored(expected, transcript, words);
      result.score.accuracy <= Accuracy(result.alignments, None)
  {
    hide Tokens, BestRows;
    ScoreInCounts(expected, transcript, words);
    var rows := Scored(expected, transcript, words).alignments;
    DivideMonotone(CountOp(rows, Match) - CountOp(rows, Insert), CountOp(rows, Match), |Tokens(expected)|);
  }

  /** The mean of two shares is one exactly if both are. */
  lemma MeanIsOne(a: real, b: real)
    requires a <= 1.0 && b <= 1.0
    ensures (a + b) / 2.0 == 1.0 <==> a == 1.0 && b == 1.0
  {
  }

  /** A perfect overall score is given exactly to a non-empty reference recited word for word. */
  lemma {:induction false} PerfectScore(expected: string, transcript: string, words: seq<Word>)
    ensures Scored(expected, transcript, words).score.overall == 1.0
      <==> Tokens(expected) != [] && Tokens(expected) == Tokens(transcript)
  {
    hide Tokens, Scored;
    OverallIsMean(expected, transcript, words);
    var s := Scored(expected, transcript, words).score;
    MeanIsOne(s.accuracy, s.completeness);
    if Tokens(expected) == [] {
      EmptyReferenceScore(expected, transcript, words);
    } else {
      PerfectAccuracy(expected, transcript, words);
      if Tokens(expected) == Tokens(transcript) {
        PerfectCompleteness(expected, transcript, words);
      }
    }
  }

  lemma {:induction false} PerfectCompleteness(expected: string, transcript: string, words: seq<Word>)
    requires Tokens(expected) != [] && Tokens(expected) == Tokens(transcript)
    ensures Scored(expected, transcript, words).score.completeness == 1.0
  {
    ScoreInCounts(expected, transcript, words);
    PerfectCounts(Tokens(expected));
    RowsOfScored(expected, transcript, words);
    hide *;
    ShareOfAll(|Tokens(expected)|);
  }

  lemma RowsOfScored(expected: string, transcript: string, words: seq<Word>)
    ensures Scored(expected, transcript, words).alignments == BestRows(Tokens(expected), Tokens(transcript))
  {
  }

  lemma ShareOfAll(n: nat)
    requires n > 0
    ensures n as real / n as real == 1.0
  {
  }

  lemma {:induction false} PerfectAccuracy(expected: string, transcript: string, words: seq<Word>)
    requires Tokens(expected) != []
    ensures Scored(expected, transcript, words).score.accuracy == 1.0 <==> Tokens(expected) == Tokens(transcript)
  {
    hide Tokens, BestRows, Dist, Runes, CountOp, RefCount, Fluency, Completeness;
    var ref, hyp := Tokens(expected), Tokens(transcript);
    DistZero(ref, hyp);
    DivideMonotone(0, Dist(ref, hyp), |ref|);
  }

  lemma PerfectCounts(ref: seq<string>)
    ensures CountOp(BestRows(ref, ref), Delete) == 0
  {
    hide Dist, BestRows;
    BestRowsAreOptimal(ref, ref);
    BestRowsAreValid(ref, ref);
    EditsAreNonMatches(BestRows(ref, ref));
    DistZero(ref, ref);
  }

  // ---------------------------------------------------------------- the whole result

  lemma RateTimes(d: nat, n: nat, m: nat)
    requires n > 0
    ensures Rate(d, n, m) * n as real == d as real
  {
    var x, z := d as real, n as real;
    assert x / z * z == x;
  }

  function NonMatches(rows: seq<Alignment>): nat {
    CountOp(rows, Substitute) + CountOp(rows, Delete) + CountOp(rows, Insert)
  }

  lemma {:induction false} DistIsNonMatches(ref: seq<string>, hyp: seq<string>)
    ensures Dist(ref, hyp) == NonMatches(BestRows(ref, hyp))
  {
    hide BestRows, Dist, Aligns, CountOp;
    BestRowsAreOptimal(ref, hyp);
    BestRowsAreValid(ref, hyp);
    EditsAreNonMatches(BestRows(ref, hyp));
  }

  /** The word error rate in the result counts the rows of the alignment beside it that are no match,
      per reference word, and the accuracy is what it leaves of one. */
  lemma {:induction false} WordRateOfResult(expected: string, transcript: string, words: seq<Word>)
    ensures var r := Scored(expected, transcript, words);
      var n := |Tokens(expected)|;
      && r.transcript == transcript
      && (n > 0 ==> r.wer * n as real == NonMatches(r.alignments) as real)
      && (n == 0 ==> r.wer == if Tokens(transcript) == [] then 0.0 else 1.0)
      && (r.wer == 0.0 <==> Tokens(expected) == Tokens(transcript))
      && r.score.accuracy == if r.wer <= 1.0 then 1.0 - r.wer else 0.0
  {
    var ref, hyp := Tokens(expected), Tokens(transcript);
    hide Tokens, BestRows, Dist, Runes, NonMatches, Fluency, Completeness, Confidences;
    RateIsZero(ref, hyp);
    RateIsNotNegative(Dist(ref, hyp), |ref|, |hyp|);
    DistIsNonMatches(ref, hyp);
    if ref != [] { RateTimes(Dist(ref, hyp), |ref|, |hyp|); }
  }

  lemma RateIsNotNegative(d: nat, n: nat, m: nat)
    ensures Rate(d, n, m) >= 0.0
  {
    if n > 0 { assert d as real / n as real >= 0.0; }
  }

  /** The character error rate in the result is that of the letters: per reference letter at most the
      longer words of the rows that are no match, and zero exactly for the same letters. */
  lemma {:induction false} CharacterRateOfResult(expected: string, transcript: string, words: seq<Word>)
    ensures var r := Scored(expected, transcript, words);
      var n := |Runes(expected)|;
      && (n > 0 ==> r.cer * n as real == Dist(Runes(expected), Runes(transcript)) as real)
      && (n > 0 ==> r.cer * n as real <= RowCharacters(r.alignments) as real)
      && (n == 0 ==> r.cer == if Runes(transcript) == [] then 0.0 else 1.0)
      && (r.cer == 0.0 <==> Runes(expected) == Runes(transcript))
  {
    var ref, hyp := Runes(expected), Runes(transcript);
    hide Tokens, BestRows, Dist, Runes, ScoreOf, Confidences, RowCharacters;
    RateIsZero(ref, hyp);
    CharacterDistanceBounded(expected, transcript);
    if ref != [] { RateTimes(Dist(ref, hyp), |ref|, |hyp|); }
  }

  /** The confidences of all words added up. */
  function Total(words: seq<Word>): real {
    if words == [] then 0.0 else Total(Init(words)) + Last(words).confidence
  }

  /** The words that carry a confidence. */
  function Rated(words: seq<Word>): nat {
    if words == [] then 0 else Rated(Init(words)) + if Last(words).confidence != 0.0 then 1 else 0
  }

  lemma {:induction false} ConfidencesSum(words: seq<Word>)
    ensures Sum(Confidences(words)) == Total(words) && |Confidences(words)| == Rated(words)
  {
    if words != [] {
      ConfidencesSum(Init(words));
      var before, c := Confidences(Init(words)), Last(words).confidence;
      if c != 0.0 {
        assert Init(before + [c]) == before && Last(before + [c]) == c;
        assert Confidences(words) == before + [c];
      } else {
        assert Confidences(words) == before;
      }
    }
  }

  /** The fluency is the mean over the words that carry a confidence, cut to [0, 1], and 0 without any. */
  lemma {:induction false} FluencyIsMean(expected: string, transcript: string, words: seq<Word>)
    ensures var f, n := Scored(expected, transcript, words).score.fluency, Rated(words);
      && (n == 0 ==> f == 0.0)
      && (n > 0 && 0.0 <= Total(words) <= n as real ==> f * n as real == Total(words))
      && (n > 0 && Total(words) < 0.0 ==> f == 0.0)
      && (n > 0 && Total(words) > n as real ==> f == 1.0)
  {
    hide Tokens, BestRows, Dist, Runes, Accuracy, Completeness, Rate;
    ConfidencesSum(words);
    if Rated(words) > 0 { MeanTimes(Total(words), Rated(words)); }
  }

  lemma MeanTimes(x: real, n: nat)
    requires n > 0
    ensures x / n as real * n as real == x
    ensures 0.0 <= x <= n as real <==> 0.0 <= x / n as real <= 1.0
    ensures x < 0.0 <==> x / n as real < 0.0
  {
    var q, z := x / n as real, n as real;
    assert q * z == x;
    if q > 1.0 {
      assert (q - 1.0) * z > 0.0;
    } else {
      assert (1.0 - q) * z >= 0.0;
    }
    if q < 0.0 {
      assert -q * z > 0.0;
    } else {
      assert q * z >= 0.0;
    }
  }

  /** Without a rate the accuracy is the matched share of the reference words. */
  lemma {:induction false} AccuracyWithoutRate(rows: seq<Alignment>, ref: seq<string>, hyp: seq<string>)
    requires Aligns(rows, ref, hyp) && ref != [] && forall k :: 0 <= k < |ref| ==> ref[k] != ""
    ensures Accuracy(rows, None) * |ref| as real == CountOp(rows, Match) as real
  {
    hide Aligns, CountOp;
    CountsOfAlignment(rows, ref, hyp);
    MeanTimes(CountOp(rows, Match) as real, |ref|);
  }
}
