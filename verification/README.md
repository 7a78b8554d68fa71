# Verification of the recitation service

This project models four parts of the Quran recitation service and proves what they promise. `Common` holds the few
definitions they share.

1. **Scoring kernel** (`EditDistance`, `ArabicText`, `Alignments`, `ErrorRates`, `Scoring`). Diacritics are
   stripped, the text is cut into words, and three separately written edit-distance programs run over it: the full
   table behind the word error rate, the cost and operation tables behind the alignment with its traceback, and the
   two swapped rows behind the character error rate. Each program is proved against one recurrence, and the
   recurrence against the edit scripts it is a minimum of. The alignment is not just some cheapest script: it is the
   one that comes first, read from its last row backwards, in the order match, substitute, delete, insert. The score
   is then related to counts of the alignment's rows.
2. **Wire codec for dynamic JSON and the scoring job** (`Wire`, `JsonCodec`, `JsonRoundTrip`, `JsonConcat`,
   `JobCodec`, `JsonStreams`, `JobStreams`, `JsonWire`, `DecimalText`, `TimestampJson`). The generated encoders and
   decoders are modelled down to the bytes. `JsonWire` states the wire form from the schema, as records of a field number
   and a payload, and proves both directions against it. All generated decoders are one loop with different field tables, so they are modelled
   by one loop over a table; `JsonStreams` has the loop as it runs, on a cursor and a depth counter that change, and
   the writer with its forks. Decoding an encoding gives the value back if and only if the nesting fits the limit of
   100 active decoders.
3. **Accounts and refresh tokens** (`Accounts`, `AccountServer`, `AccountRuns`, `AccountSafety`, `AccountOutcomes`,
   `RefreshClient`, `RefreshActor`, `RefreshSessions`, `RefreshRuns`). The handlers are steps of a transition system over the user, token
   and identity tables, and `AccountServer` has them as methods that update those tables, one request after another. The
   phone's token refresher runs beside the server and is stepped at its suspension points; a request it has given up on
   may still reach the server.
4. **History and quota** (`BestScores`, `BestScoreStores`, `HistoryStore`, `ScoringQuota`). Best scores from many
   devices converge to the maximum; the device's log and cache are rebuilt from the server; the pruned quota list
   decides as the full history would.

## Assumptions

- A handler runs without interruption. The code issues several SQL statements per handler outside a transaction, so
  every claim about accounts and tokens is a claim about handlers that do not overlap.
- Random values (user ids, token ids, salts) are fresh; `Fresh` says so. A password hash verifies exactly the password
  it was made from, a token hash is injective, and the case folding of the email column is the one the code compares
  with.
- Varints, fixed-width and length-delimited payloads, and groups follow the Protocol Buffers Encoding guide, sections
  "Base 128 Varints", "Message Structure" and "Length-Delimited Records"; the wire library is not part of this model.
  The writer throws for a length that does not fit 32 bits.
- White space is the Unicode White_Space property. Scores and error rates are exact rationals.
- Nobody but the client presents the client's refresh tokens.
- Of the failures inside a handler, two that change a table are steps of their own: in a refresh the insert of the new
  token fails after the old one was marked (`apps/bff/src/rest/rest.ts:254-275`), and in a deletion the revocation fails
  after the row was marked (`apps/bff/src/auth/routes.ts:356-369`). Both answer 502.

## Findings

- **Score of two empty texts.** `0 <= accuracy <= overall <= completeness <= 1` holds for a non-empty reference, and
  also for an empty one against a non-empty transcript. With two empty texts the accuracy is 1 and the completeness 0
  (`Scoring.ScoreOrder` is the exact condition).
- **Jobs that can be written but not read.** The encoders have no depth limit and the decoders have. An object costs
  three levels, a list two. `JobStreams.Transfer` says exactly which responses the client refuses;
  `JsonRoundTrip.NestingLimit` puts the border for objects on their own between 33 and 34 and `JobStreams.JobNestingLimit`
  for a job's evaluation between 32 and 33. `JsonRoundTrip.WritableButUnreadable` and `JobStreams.WrittenButRefused` are
  inputs beyond it that the writer takes.
- **Dates before 1970.** `toTimestamp` truncates toward zero, so a date before the epoch that is not on a whole second
  gets negative nanos, against the timestamp's own description. `JsonCodec.NanosInRangeIff` is the exact condition;
  the date still survives the conversion there and back.
- **The grace period is not checked at sign-in.** The documentation limits recovery to 30 days. The code reactivates
  any row the purge has not removed yet: without a sign-in the account survives exactly until a purge is executed after
  the grace period (`AccountSafety.SurvivesIff`), the old password restores it exactly until then
  (`AccountSafety.DeletedAccountComesBackIff`), and with no purge however long ago it was deleted
  (`AccountSafety.LateLoginRestores`).
- **A deletion cut short locks nobody out.** If the revocation fails, the soft-deleted user's tokens stay redeemable
  exactly as before, and deleting again answers 404 and repairs nothing (`AccountSafety.DeleteCutShortIff`). In every
  reachable state a soft-deleted user with a live token is one whose deletion was cut short
  (`AccountRuns.ReachableIsSafe`).
- **A lost answer is a replay.** The refresher's coalescing keeps its own traffic from looking like a replay as long
  as every answer arrives, no rotation is cut short by a failed insert, and no request reaches the server that the client
  has given up on. Otherwise a request can be a replay that revokes everything the user holds: `RefreshClient.ReplayIff`
  is the exact condition, and `RefreshClient.CutShortIsAReplayIff` the one after a rotation that was cut short.
  `RefreshRuns.LostAnswerIsAReplay` is a run with a lost answer. In `RefreshRuns.LateRequestIsAReplay` no answer is lost:
  a request given up on arrives after the next rotation of the same token. Sign-ins and sign-outs during a rotation cause
  no replay.
- **A session change during a rotation may be undone.** The refresher stores whatever token arrives, and a rejection
  signs out whoever is signed in. Once everybody who waited for the rotation has resumed, a sign-out made meanwhile
  stands exactly if the answer was no new token, and a sign-in exactly if it was neither a new token nor a 401
  (`RefreshSessions.SessionChangeStandsIff`). An older `send` whose second attempt is refused signs the new session out
  as well (`RefreshSessions.SecondAttemptStandsIff`), and so does one that still waits for an earlier rejected rotation
  (`RefreshSessions.OlderWaiterStandsIff`). `RefreshRuns.SignOutIsUndone`, `SignInIsOverwritten`, `SignInIsRejected` and
  `SecondRefusalSignsOut` are runs.
- **A failed best-score write is not repaired.** The browser's cache suppresses later scores that do not beat the
  score whose write failed: `BestScores.FailedWriteIsNotRepaired` is a run that loses a score.
  `BestScores.RecordCoversIff` is the exact condition for one call, and `BestScores.ConvergesIff` for a whole run: the
  largest recorded score reaches the server exactly if every failed write was matched by one that arrived. The next
  refresh makes suppression harmless again (`BestScores.RefreshRepairs`), but does not bring the lost score back.
- **The time of a best score depends on the delivery order** exactly when two writes of the largest score carry
  different times (`BestScores.TimesCommuteIff`); the score does not.
- **The quota needs a clock that does not run backwards.** A call is decided as the whole acceptance history would
  decide it exactly if its window holds fewer than sixty acceptances, or still sixty without those that some call in
  between was a window or more away from (`ScoringQuota.DecidesAlikeIff`). `ScoringQuota.ClockSetBackDiffers` is a run
  with the clock set back that is decided differently.

## Model

| member | source | states |
|---|---|---|
| EditDistance.DistAt | apps/backend/internal/arabic/wer.go:32-44 | A table cell is the minimum of its three neighbours plus their costs, and the borders count deletions and insertions |
| EditDistance.DistIsLowerBound | apps/backend/internal/arabic/wer.go:21-46 | No valid edit script of the two sequences is cheaper than the table's corner |
| EditDistance.BestOpStep | apps/backend/internal/arabic/align.go:44-58 | The operation stored at a cell is applicable there (match only on equal words, substitute only on unequal ones) and its step accounts for the cell's distance |
| EditDistance.BestScriptIsOptimal | apps/backend/internal/arabic/align.go:44-62 | The script the stored operations spell is valid and costs exactly the distance |
| EditDistance.BestScriptIsFirst | apps/backend/internal/arabic/align.go:65-91 | Every other script as cheap comes later when read from the end in the order match, substitute, delete, insert |
| EditDistance.DistSymmetric | apps/backend/internal/arabic/wer.go:21-46 | The distance is symmetric |
| EditDistance.DistBounds | apps/backend/internal/arabic/wer.go:21-46 | The distance lies between the length difference and the larger length |
| EditDistance.DistZero | apps/backend/internal/arabic/wer.go:21-46 | The distance is zero exactly for equal sequences |
| EditDistance.DistTriangle | apps/backend/internal/arabic/wer.go:21-46 | Triangle inequality |
| EditDistance.DistSubadditive | apps/backend/internal/arabic/cer.go:6-32 | The distance of two concatenations is at most the sum of the distances of the parts |
| EditDistance.OneWordChange | apps/backend/internal/arabic/wer.go:17-18 | Replacing one transcript word moves the numerator by at most one in either direction |
| EditDistance.Min3 | apps/backend/internal/arabic/wer.go:48-57 | The result is one of the three and not above any |
| ArabicText.Normalize | apps/backend/internal/arabic/normalize.go:9-19 | The loop keeps exactly the characters that are not diacritics, in order |
| ArabicText.DiacriticsAreMarks | apps/backend/internal/arabic/normalize.go:21-31 | The vowel signs, the superscript alef and the annotation signs are diacritics; no letter, digit or space is |
| ArabicText.SpacesAreSpaces | apps/backend/internal/arabic/normalize.go:33-36 | The characters words are split at, one by one |
| ArabicText.FieldsCutAtSpaces | apps/backend/internal/arabic/normalize.go:33-36 | Splitting cuts at every space and nowhere else |
| ArabicText.FieldsAreWords | apps/backend/internal/arabic/normalize.go:33-36 | Every token is non-empty and free of white space |
| ArabicText.TrimIsRedundant | apps/backend/internal/arabic/normalize.go:33-36 | Trimming before splitting changes nothing, so the tokeniser and the character rate's own splitting agree |
| ArabicText.StripThenSplit | apps/backend/internal/arabic/normalize.go:9-36 | Stripping then splitting is splitting, stripping each word and dropping the empty ones |
| ArabicText.NormalizeThenTokenize | apps/backend/internal/arabic/normalize.go:7-36 | The same for the tokens the kernel works on, and that each of them is a word |
| ArabicText.RunesAreJoinedTokens | apps/backend/internal/arabic/cer.go:7-8 | The character rate's rune sequence is the concatenation of the aligned words |
| ArabicText.DiacriticsAreInvisible | apps/backend/internal/arabic/normalize.go:7-31 | Diacritics inserted anywhere change neither the tokens nor the runes, hence neither alignment nor rates |
| Alignments.RowsAlign | apps/backend/internal/arabic/align.go:93-112 | The rows of a script are valid rows whose reference and hypothesis words are the two inputs in order |
| Alignments.RowsAreAScript | apps/backend/internal/arabic/align.go:13-19 | Conversely every valid list of rows is the rows of its own operations |
| Alignments.EditsAreNonMatches | apps/backend/internal/arabic/align.go:13-19 | A script's cost is its number of non-match rows, that is its substitutes, deletes and inserts |
| Alignments.BestRowsAreOptimal | apps/backend/internal/arabic/align.go:21-63 | The returned rows project back to both inputs, have exactly as many non-match rows as the distance, no alignment has fewer, and among those with as few they are backwards-first |
| ErrorRates.LevenshteinMatrix | apps/backend/internal/arabic/wer.go:21-46 | Every cell of the filled table is the distance of the two prefixes |
| ErrorRates.WER | apps/backend/internal/arabic/wer.go:3-19 | The distance over the reference length; 0 or 1 for an empty reference |
| ErrorRates.PickBest | apps/backend/internal/arabic/align.go:65-77 | The chosen candidate has the least cost and, among those, the best priority |
| ErrorRates.PickedIsBest | apps/backend/internal/arabic/align.go:52-56 | What is chosen at a cell is the distance and the operation that starts the backwards-first cheapest script |
| ErrorRates.NewTables | apps/backend/internal/arabic/align.go:29-42 | Both tables with their borders: deletions down the left, insertions along the top |
| ErrorRates.FillTables | apps/backend/internal/arabic/align.go:29-58 | Every cell but the corner holds the preferred operation |
| ErrorRates.Traceback | apps/backend/internal/arabic/align.go:93-112 | The walk ends at (0,0), never takes its default branch, and yields the best rows in reverse |
| ErrorRates.Reverse | apps/backend/internal/arabic/align.go:114-118 | The rows are reversed in place |
| ErrorRates.Align | apps/backend/internal/arabic/align.go:21-63 | The rows of the backwards-first cheapest script of the two token lists |
| ErrorRates.CER | apps/backend/internal/arabic/cer.go:5-32 | The two swapped rows compute the same rate as the full table would, over the runes |
| ErrorRates.CharactersBoundedByRows | apps/backend/internal/arabic/cer.go:5-32 | Any alignment of the words bounds the character distance by the longer words of its non-match rows |
| ErrorRates.CharacterDistanceBounded | apps/backend/internal/arabic/cer.go:5-32 | In particular the alignment that is returned |
| ErrorRates.RateIsZero | apps/backend/internal/arabic/wer.go:10-18 | A rate is zero exactly for equal sequences |
| ErrorRates.ZeroWordRateIsZeroCharacterRate | apps/backend/internal/arabic/cer.go:5-32 | A word error rate of zero forces a character error rate of zero |
| Scoring.ScorePronunciation | apps/backend/internal/arabic/pronunciation.go:25-74 | The counters and the running sum compute the score of the specification |
| Scoring.Clamp | apps/backend/internal/arabic/pronunciation.go:76-84 | The result is in [0, 1] and values already there are unchanged |
| Scoring.WordConfidences | apps/backend/internal/scoring/scoring.go:71-83 | The non-zero confidences in order |
| Scoring.Score | apps/backend/internal/scoring/scoring.go:57-68 | Transcript, alignment, word and character error rate and score, each in its place; `WordRateOfResult`, `CharacterRateOfResult` and `FluencyIsMean` say what each is |
| Scoring.WordRateOfResult | apps/backend/internal/scoring/scoring.go:57-68 | The result's word error rate times the reference words is the number of rows that are no match, with the two values for an empty reference, and the accuracy is one minus that rate, cut at zero |
| Scoring.CharacterRateOfResult | apps/backend/internal/scoring/scoring.go:57-68 | The result's character error rate times the reference letters is their distance, at most the longer words of the rows that are no match, and zero exactly for the same letters |
| Scoring.FluencyIsMean | apps/backend/internal/arabic/pronunciation.go:58-65 | The fluency is the mean over the words with a confidence, cut to [0, 1], and 0 without any |
| Scoring.AccuracyWithoutRate | apps/backend/internal/arabic/pronunciation.go:44-50 | Without a rate the accuracy is the matched share of the reference words |
| Scoring.OverallIsMean | apps/backend/internal/arabic/pronunciation.go:67-67 | The overall score is the mean of accuracy and completeness |
| Scoring.CountsOfAlignment | apps/backend/internal/arabic/pronunciation.go:26-39 | The counters of a valid alignment count the words of the two inputs |
| Scoring.ScoreInCounts | apps/backend/internal/arabic/pronunciation.go:41-56 | Against a non-empty reference accuracy is (matches - inserts) / reference length, clamped, and completeness the share of words not deleted |
| Scoring.ScoreOrder | apps/backend/internal/arabic/pronunciation.go:41-73 | 0 <= accuracy <= overall <= completeness <= 1 exactly when one of the two texts has a word |
| Scoring.AccuracyBoundedByMatches | apps/backend/internal/arabic/pronunciation.go:41-50 | The WER-based accuracy never exceeds matches / (matches + substitutes + deletes) |
| Scoring.PerfectScore | apps/backend/internal/arabic/pronunciation.go:67-67 | Overall is 1 exactly when the reference is not empty and the two token lists are equal |
| Wire.VarintRoundTrip | apps/bff/src/gen/google/protobuf/struct.ts:143-150 | A varint in front of any bytes is read back, leaving those bytes |
| Wire.VarintDigits | apps/bff/src/gen/google/protobuf/struct.ts:143-150 | A varint is the base-128 digits of its number, least significant first, continued by the high bit, and no longer than needed |
| Wire.LowBits | apps/bff/src/gen/google/protobuf/struct.ts:143-145 | Tags and lengths are read modulo 2^32, integers in two's complement of 32 or 64 bits |
| Wire.BadVarint | apps/bff/src/gen/google/protobuf/struct.ts:143-143 | A varint that is cut off or longer than ten bytes is refused |
| Wire.BadPayload | apps/bff/src/gen/google/protobuf/struct.ts:160-160 | A payload that is cut off and a wire type that does not exist are refused |
| Wire.IntRoundTrip | apps/bff/src/gen/quran/v1/scoring.ts:134-136 | Signed integers survive sign extension and truncation to 32 or 64 bits |
| Wire.DelimitedRoundTrip | apps/bff/src/gen/google/protobuf/struct.ts:126-126 | A length-delimited payload is read back whole |
| Wire.SkipLocal | apps/bff/src/gen/google/protobuf/struct.ts:160-160 | Skipping a field does not depend on what follows it |
| JsonCodec.Loop | apps/bff/src/gen/google/protobuf/struct.ts:142-162 | The field loop of every decoder consumes input and keeps the kind of its message |
| JsonCodec.Message | apps/bff/src/gen/google/protobuf/struct.ts:132-166 | A decoder with its depth check; it never gains input |
| JsonCodec.IndexOf | apps/bff/src/gen/google/protobuf/struct.ts:152-152 | The first property with the key, if there is one |
| JsonCodec.DateRoundTrip | apps/bff/src/gen/quran/v1/scoring.ts:793-803 | Every whole-millisecond date survives the conversion to a timestamp and back, on both sides of the epoch |
| JsonCodec.TimestampMeans | apps/bff/src/gen/quran/v1/scoring.ts:793-797 | The timestamp of a date is the same instant, cut toward the epoch to whole seconds |
| JsonCodec.DateMeans | apps/bff/src/gen/quran/v1/scoring.ts:799-803 | The date of a timestamp is its instant cut toward the epoch to whole milliseconds, or the invalid date |
| JsonCodec.NanosInRangeIff | apps/bff/src/gen/quran/v1/scoring.ts:793-797 | The nanos are non-negative exactly for dates from the epoch on or on a whole second |
| JsonRoundTrip.LoopNested | apps/bff/src/gen/google/protobuf/struct.ts:145-155 | A nested message in the stream is decoded, stored, and the loop goes on behind it |
| JsonRoundTrip.ScalarValue | apps/bff/src/gen/google/protobuf/struct.ts:337-349 | Null, numbers, strings, booleans and undefined come back as themselves |
| JsonRoundTrip.ValueRoundTrip | apps/bff/src/gen/google/protobuf/struct.ts:337-430 | Decoding an encoded value gives it back if the active decoders plus its nesting fit the limit, and fails with the recursion error otherwise |
| JsonRoundTrip.EntryRoundTrip | apps/bff/src/gen/google/protobuf/struct.ts:244-294 | The same for a map entry, empty keys included |
| JsonRoundTrip.FieldsRoundTrip | apps/bff/src/gen/google/protobuf/struct.ts:123-166 | The same for the properties of an object, continuing any earlier ones; siblings do not add to the depth |
| JsonRoundTrip.ItemsRoundTrip | apps/bff/src/gen/google/protobuf/struct.ts:546-585 | The same for the elements of a list |
| JsonRoundTrip.TreeIsClean | apps/bff/src/gen/google/protobuf/struct.ts:504-539 | For a JSON tree nothing is dropped or reordered on the way |
| JsonRoundTrip.TreeRoundTrip | apps/bff/src/gen/google/protobuf/struct.ts:336-430 | A JSON tree comes back unchanged if and only if starting depth plus nesting need is at most 100 |
| JsonRoundTrip.StructRoundTrip | apps/bff/src/gen/google/protobuf/struct.ts:122-166 | A struct comes back exactly when its depth fits |
| JsonRoundTrip.ListRoundTrip | apps/bff/src/gen/google/protobuf/struct.ts:546-585 | A list comes back exactly when its depth fits |
| JsonRoundTrip.NestingLimit | apps/bff/src/gen/google/protobuf/struct.ts:362-365 | Objects nested in one another come back exactly up to 33 deep |
| JsonRoundTrip.WritableButUnreadable | apps/bff/src/gen/google/protobuf/struct.ts:123-140 | Under empty keys, objects nested deeper than that have a wire form and are refused with the recursion error |
| JsonConcat.MessageLocal | apps/bff/src/gen/google/protobuf/struct.ts:132-166 | A successful decoding does not depend on the bytes behind what it consumed |
| JsonConcat.LoopAppend | apps/bff/src/gen/google/protobuf/struct.ts:142-162 | Behind complete fields the loop goes on as if it had started there with what they stored |
| JsonConcat.EncodingsAreComplete | apps/bff/src/gen/google/protobuf/struct.ts:123-130 | What the encoders write is complete wherever it can be decoded |
| JsonConcat.UnknownFieldIgnored | apps/bff/src/gen/google/protobuf/struct.ts:157-160 | A well-formed unknown or wrong-wire-type field after complete fields changes nothing, whatever follows |
| JsonConcat.ListsAppend | apps/bff/src/gen/google/protobuf/struct.ts:554-585 | A list parsed from two joined encodings is the two lists appended |
| JsonConcat.PutAllIsMerge | apps/bff/src/gen/google/protobuf/struct.ts:150-154 | Storing the second object's entries over the first is the right-biased merge |
| JsonConcat.PutIntoPutAll | apps/bff/src/gen/google/protobuf/struct.ts:150-154 | Assigning a property after a merge is merging after the assignment |
| JsonConcat.StructsMerge | apps/bff/src/gen/google/protobuf/struct.ts:132-166 | A struct parsed from two joined encodings is the first with the second merged over it |
| JobCodec.TimestampRoundTrip | apps/bff/src/gen/google/protobuf/timestamp.ts:126-176 | A timestamp comes back as itself, zero and negative parts included |
| JobCodec.JobRoundTrip | apps/bff/src/gen/quran/v1/scoring.ts:126-242 | A job comes back exactly when its nesting fits: elided defaults, absent against empty optional fields, and the date are kept |
| JobCodec.ResponseRoundTrip | apps/bff/src/gen/quran/v1/scoring.ts:632-671 | A response of JSON trees decoded from depth zero comes back exactly when its nesting plus one fits |
| JsonStreams.BinaryReader.Decode | apps/bff/src/gen/google/protobuf/struct.ts:132-166 | The decoder on the shared cursor does what the specification says and restores the depth counter on every exit, thrown errors included |
| JsonStreams.BinaryReader.DecodeFields | apps/bff/src/gen/google/protobuf/struct.ts:142-162 | The while loop with its early exits |
| JsonStreams.BinaryReader.DecodeField | apps/bff/src/gen/google/protobuf/struct.ts:371-420 | One case of the field switch; `JsonWire.MessageStoresAll` says which property each number sets |
| JsonStreams.SkipLeavesSuffix | apps/bff/src/gen/google/protobuf/struct.ts:160-160 | Skipping only moves the cursor forward |
| JsonStreams.BinaryWriter.WriteValue | apps/bff/src/gen/google/protobuf/struct.ts:337-357 | Appends exactly the encoding of the wrapped value, which `JsonWire.ValueIsWritten` gives by field number, and throws exactly when a length does not fit |
| JsonStreams.BinaryWriter.WriteStruct | apps/bff/src/gen/google/protobuf/struct.ts:123-130 | Appends one entry per property that is not undefined |
| JsonStreams.BinaryWriter.WriteEntry | apps/bff/src/gen/google/protobuf/struct.ts:245-253 | Appends the entry with an empty key elided |
| JsonStreams.BinaryWriter.WriteList | apps/bff/src/gen/google/protobuf/struct.ts:547-552 | Appends one value per element |
| JsonStreams.BinaryWriter.Join | apps/bff/src/gen/google/protobuf/struct.ts:126-126 | A fork's bytes go behind their length, and the outer buffer is back |
| JobStreams.WriteJob | apps/bff/src/gen/quran/v1/scoring.ts:127-153 | Appends exactly the job's encoding, and throws exactly when a length, the status or the date has no wire form |
| JobStreams.WriteTimestamp | apps/bff/src/gen/google/protobuf/timestamp.ts:127-135 | Appends the timestamp with zero parts elided |
| JobStreams.Transfer | apps/bff/src/gen/quran/v1/scoring.ts:632-671 | From the writer to the reader a job arrives unchanged exactly when it has a wire form and its nesting fits |
| JobStreams.JobNestingLimit | apps/bff/src/gen/quran/v1/scoring.ts:632-671 | Whatever the keys, an evaluation nested up to 32 deep comes back from the response and a deeper one is refused |
| JobStreams.WrittenButRefused | apps/bff/src/gen/quran/v1/scoring.ts:126-153 | Jobs of plain JSON that the writer takes and the reader refuses, for every depth from 33 to 1000 |
| JsonWire.TablesAgree | apps/bff/src/gen/google/protobuf/struct.ts:145-155 | The decoders know exactly the declared fields, each under its own wire type |
| JsonWire.ScalarStores | apps/bff/src/gen/google/protobuf/struct.ts:371-403 | A scalar record is read into the property of its number |
| JsonWire.SubStores | apps/bff/src/gen/google/protobuf/struct.ts:403-420 | A message record is decoded and stored under its number |
| JsonWire.MessageStoresAll | apps/bff/src/gen/google/protobuf/struct.ts:132-166 | Decoding gives what the records store one after another by the schema; records with an undeclared number or another wire type store nothing |
| JsonWire.ValueIsWritten | apps/bff/src/gen/google/protobuf/struct.ts:337-357 | A value is written as the record of its field: null 1, number 2, string 3, boolean 4, object 5, list 6 |
| JsonWire.FieldsAreWritten | apps/bff/src/gen/google/protobuf/struct.ts:123-130 | An object is written as one entry record per defined property |
| JsonWire.EntryIsWritten | apps/bff/src/gen/google/protobuf/struct.ts:245-253 | An entry is written as key 1 and value 2, an empty key elided |
| JsonWire.ItemsAreWritten | apps/bff/src/gen/google/protobuf/struct.ts:547-552 | A list is written as one value record per element |
| JsonWire.TimestampIsWritten | apps/bff/src/gen/google/protobuf/timestamp.ts:127-135 | A timestamp is written as seconds 1 and nanos 2, zeros elided |
| JsonWire.JobIsWritten | schemas/proto/quran/v1/scoring.proto:28-37 | A job is written as the records of its eight declared fields, in order, defaults and absent fields elided |
| JsonWire.ResponseIsWritten | schemas/proto/quran/v1/scoring.proto:60-62 | A response carries the job as its field 1 |
| JsonWire.ValueBytes | apps/bff/src/gen/google/protobuf/struct.ts:338-356 | The bytes of a value: null 08 00, number 11, string 1A, boolean 20, object 2A, list 32 |
| JsonWire.BytesOfValue | apps/bff/src/gen/google/protobuf/struct.ts:371-403 | What those bytes are read as |
| JsonWire.UnwrapOrder | apps/bff/src/gen/google/protobuf/struct.ts:523-540 | Which of several properties of a value message wins |
| JsonWire.UnsafeSecondsRefused | apps/bff/src/gen/google/protobuf/timestamp.ts:243-252 | Seconds a double cannot hold exactly are refused |
| JsonWire.EndTagEnds | apps/bff/src/gen/google/protobuf/struct.ts:157-159 | A zero tag or an end of group ends a message early |
| JsonWire.SkipPayload | apps/bff/src/gen/google/protobuf/struct.ts:160-160 | Skipping consumes exactly the payload of its wire type |
| JsonWire.GroupIsSkipped | apps/bff/src/gen/google/protobuf/struct.ts:160-160 | Skipping a group consumes its records and its end tag |
| DecimalText.PaddedIsFixed | apps/bff/src/gen/google/protobuf/timestamp.ts:239-239 | Zero-padding gives the fixed-width digits |
| DecimalText.DecimalDigits | apps/bff/src/gen/google/protobuf/timestamp.ts:239-239 | The text of a number is its decimal digits, the most significant first, without leading zeros |
| TimestampJson.FractionRoundTrip | apps/bff/src/gen/google/protobuf/timestamp.ts:214-241 | The 0, 3, 6 or 9 printed digits parse back to the same nanos for every value below one second, in front of `Z` and of any numeric offset up to 23:59 |
| TimestampJson.FractionIsShortest | apps/bff/src/gen/google/protobuf/timestamp.ts:235-241 | The printed fraction is the shortest of 0, 3, 6 or 9 digits that keeps the nanos, digit by digit |
| TimestampJson.FractionMeans | apps/bff/src/gen/google/protobuf/timestamp.ts:226-227 | A read fraction is its digits as decimals of a second, those past the ninth dropped |
| AccountSafety.ReplayKills | apps/bff/src/rest/rest.ts:246-253 | Presenting a used token leaves no token the user was ever given redeemable |
| AccountServer.Server.HandleRefresh | apps/bff/src/rest/rest.ts:218-276 | The handler's reads and writes in order do the refresh step: refusal, replay with revocation, rotation, or a rotation cut short with the old token marked |
| AccountServer.Server.HandleSignup | apps/bff/src/auth/routes.ts:132-169 | Conflict for any row with the email, deleted or not; otherwise a new user with a first token |
| AccountServer.Server.HandleLogin | apps/bff/src/auth/routes.ts:372-406 | Verifies, reactivates a soft-deleted row and issues a token; `AccountOutcomes.LoginIff` says for which passwords |
| AccountServer.Server.HandleGoogle | apps/bff/src/auth/routes.ts:454-507 | Linked sign-in, new account, refusal of an unverified email, or link and sign-in |
| AccountServer.Server.HandleDeleteMe | apps/bff/src/auth/routes.ts:352-370 | Soft-deletes a live row and revokes every token of the user; cut short, the row alone is marked |
| AccountServer.Server.HandleChangeEmail | apps/bff/src/auth/routes.ts:265-300 | Changes the email of a live, verified user unless any row holds the new one |
| AccountServer.Server.HandleChangePassword | apps/bff/src/auth/routes.ts:314-341 | Changes the password hash of a live, verified user |
| AccountServer.Server.HandleEditProfile | apps/bff/src/auth/routes.ts:233-254 | Changes the sent fields of a live row only |
| AccountServer.Server.Serve | apps/bff/src/auth/routes.ts:132-507 | Every handler does its step and keeps emails unique |
| AccountServer.Server.ServeAll | apps/bff/src/auth/routes.ts:132-507 | Serving requests in order leaves the tables of the run of handlers, in a state with the invariant, and gives each handler's answer |
| AccountServer.ServeFromStart | apps/bff/src/auth/routes.ts:132-507 | The same for a server that starts with empty tables |
| AccountServer.Server.MarkRefreshTokenUsed | apps/bff/src/auth/refresh-tokens.ts:55-62 | Marks an unused row used and leaves every other row |
| AccountServer.Server.RevokeAllRefreshTokensForUser | apps/bff/src/auth/refresh-tokens.ts:67-74 | Revokes the user's unrevoked rows and leaves every other row; `AccountOutcomes.RefreshDoes` and `DeleteIff` say so of its two callers |
| AccountServer.Server.RecordIssuedRefreshToken | apps/bff/src/auth/refresh-tokens.ts:11-25 | Adds the row of a new token |
| AccountServer.Server.SoftDeleteUser | apps/bff/src/auth/users.ts:241-249 | Marks a live row deleted now; true on the first delete only |
| AccountServer.Server.ReactivateUser | apps/bff/src/auth/users.ts:226-234 | Clears the mark; true if it was set |
| AccountServer.Server.PurgeExpiredSoftDeletedUsers | apps/bff/src/auth/users.ts:208-218 | Removes rows deleted longer ago than the grace period, with their tokens and links |
| AccountRuns.RotationKeeps | apps/bff/src/rest/rest.ts:256-270 | A rotation keeps one live token per chain and one successor per token |
| AccountRuns.CutShortKeeps | apps/bff/src/rest/rest.ts:254-275 | A rotation whose insert fails keeps the invariant: the token is dead without a successor |
| AccountRuns.DeleteCutShortKeeps | apps/bff/src/auth/routes.ts:356-369 | A deletion whose revocation fails keeps the invariant, with the user on record |
| AccountRuns.RevocationKeeps | apps/bff/src/auth/refresh-tokens.ts:67-74 | A revocation keeps the invariant, whatever happens to the user's own row |
| AccountRuns.PurgeKeeps | apps/bff/src/auth/users.ts:208-218 | A purge keeps the invariant |
| AccountRuns.StepKeeps | apps/bff/src/auth/routes.ts:132-507 | Every handler keeps the invariant: table agreement, one live token per chain, unique successors, no live token for a soft-deleted user unless the deletion was cut short |
| AccountRuns.RunKeeps | apps/bff/src/auth/routes.ts:132-507 | So does every run of handlers |
| AccountRuns.ReachableIsSafe | apps/bff/src/auth/routes.ts:132-507 | In every state reached from empty tables each chain has at most one live token, no two tokens share a successor, and a soft-deleted user has no live token unless a deletion was cut short |
| AccountSafety.RunExtends | apps/bff/src/auth/refresh-tokens.ts:55-74 | Over any run used and revoked marks never move, removed tokens never return, successors and chains never change |
| AccountSafety.RefreshSucceedsIff | apps/bff/src/rest/rest.ts:234-272 | A refresh succeeds exactly for a genuine, unexpired, unused and unrevoked token with a row |
| AccountSafety.DeadForever | apps/bff/src/rest/rest.ts:242-254 | A token that is not redeemable once is refused in every later state |
| AccountSafety.RedeemedOnce | apps/bff/src/rest/rest.ts:246-255 | A redeemed token is never redeemed again |
| AccountSafety.ReplayLocksOut | apps/bff/src/rest/rest.ts:246-253 | After a replay no token the user held at that moment is ever redeemable again |
| AccountSafety.DeletedCannotRefresh | apps/bff/src/auth/routes.ts:360-364 | A soft-deleted user's refresh is refused unless a deletion of theirs was cut short |
| AccountSafety.DeleteCutShortIff | apps/bff/src/auth/routes.ts:352-370 | After a deletion cut short a token is redeemable exactly if it was before, and a second deletion changes nothing |
| AccountSafety.CutShortLocksOutIff | apps/bff/src/auth/routes.ts:352-370 | A deletion cut short locks the user out exactly if no token of theirs was live |
| AccountSafety.SurvivesIff | apps/bff/src/auth/users.ts:206-249 | Without that user's own sign-in a soft-deleted row and its links stay unchanged if no purge of the run is executed after the grace period, and are gone for good otherwise |
| AccountSafety.GoneForever | apps/bff/src/auth/users.ts:208-218 | A purged id never returns |
| AccountSafety.Recoverable | apps/bff/src/auth/users.ts:208-249 | From a soft delete to the end of the grace period no run without that user's own sign-in changes anything in the row or its links |
| AccountSafety.SignInRestores | apps/bff/src/auth/routes.ts:379-401 | The old credentials or a linked identity give the same user back live, and a sign-up for the address is refused |
| AccountSafety.DeletedAccountComesBackIff | apps/bff/src/auth/routes.ts:352-406 | Delete, any run without that user's sign-in, then the old password: same id, email, hash and profile, live again, exactly if no purge came after the grace period |
| AccountSafety.DeletedAccountComesBack | apps/bff/src/auth/routes.ts:352-406 | In particular for every run within the grace period |
| AccountSafety.LateLoginRestores | apps/bff/src/auth/users.ts:220-234 | And after any length of time in which nothing purges |
| AccountSafety.PurgeRemovesIff | apps/bff/src/auth/users.ts:206-218 | A row is purged exactly when it is soft-deleted and the grace period has passed, and its tokens and links go with it |
| AccountOutcomes.LoginIff | apps/bff/src/auth/routes.ts:372-406 | A login succeeds exactly if some row has the address and the password, as the user of that row, and is otherwise a 401 that changes nothing |
| AccountOutcomes.SignInDoes | apps/bff/src/auth/routes.ts:95-130 | Every successful sign-in leaves its user live and the other rows alone, and adds one token of that user for thirty days |
| AccountOutcomes.SignupIff | apps/bff/src/auth/routes.ts:132-169 | A sign-up succeeds exactly for an address no row holds, deleted or not, and stores what was sent |
| AccountOutcomes.GoogleIff | apps/bff/src/auth/routes.ts:454-507 | A Google sign-in is refused exactly for an unlinked, unverified address an account holds; which user is signed in and what is linked otherwise |
| AccountOutcomes.ChangePasswordIff | apps/bff/src/auth/routes.ts:314-341 | A password change succeeds exactly with the current password, and then the new password alone opens the row |
| AccountOutcomes.ChangeEmailIff | apps/bff/src/auth/routes.ts:265-300 | An email change needs the current password and an address nobody holds |
| AccountOutcomes.EditProfileIff | apps/bff/src/auth/routes.ts:233-254 | An edit sets what was sent in a live row and keeps the rest |
| AccountOutcomes.DeleteIff | apps/bff/src/auth/routes.ts:352-370 | A deletion marks the live row with the time and revokes that user's tokens and no others |
| AccountOutcomes.RefreshDoes | apps/bff/src/rest/rest.ts:234-272 | A refresh exchanges a live token for one of the same user; a replay revokes that user's tokens and no others; anything else is a 401 that changes nothing |
| AccountOutcomes.OthersUntouched | apps/bff/src/auth/routes.ts:132-507 | No request changes a row, token or link of a user it does not act for |
| AccountOutcomes.OthersStillRefresh | apps/bff/src/auth/refresh-tokens.ts:67-74 | Another user's replay, deletion or other request changes the outcome of no refresh |
| AccountOutcomes.StaysUsableIff | apps/bff/src/auth/refresh-tokens.ts:55-74 | A request ends a token's life exactly if it redeems it, replays a token of the same user, deletes that user, or purges them |
| AccountOutcomes.UsableUntilKilled | apps/bff/src/auth/refresh-tokens.ts:55-74 | Over every run a live token stays live exactly until such a request |
| AccountOutcomes.CredentialsKept | apps/bff/src/auth/users.ts:152-234 | Over every run in which a user changes neither, address and password stay until the row is purged |
| AccountOutcomes.PasswordStands | apps/bff/src/auth/routes.ts:372-406 | Over every such run exactly the current password signs the user in, and every other one is refused |
| AccountOutcomes.SignupThenLogin | apps/bff/src/auth/routes.ts:132-169 | In particular after a sign-up |
| AccountOutcomes.ChangeThenLogin | apps/bff/src/auth/routes.ts:314-341 | And after a password change: the old password is refused |
| RefreshClient.RotationStaysOne | apps/ios/Sources/QuranRecitationApp/Backend/TokenRefresher.swift:45-55 | Only the shared task is unfinished and only its starter clears it, after every event |
| RefreshClient.SomebodyStillLeads | apps/ios/Sources/QuranRecitationApp/Backend/TokenRefresher.swift:49-54 | While a shared task is set, the caller that will clear it is there, after every event |
| RefreshClient.NeverWedged | apps/ios/Sources/QuranRecitationApp/Backend/TokenRefresher.swift:45-64 | From every state the client alone can finish and clear the shared rotation in at most three events |
| RefreshClient.NobodyWaitsInVain | apps/ios/Sources/QuranRecitationApp/Backend/TokenRefresher.swift:45-55 | A waiting caller can resume, or waits for the shared rotation |
| RefreshClient.StartOutcome | apps/ios/Sources/QuranRecitationApp/Backend/AuthHTTPClient.swift:50-56 | A send starts an attempt exactly with a stored token, else it ends signed out |
| RefreshClient.AttemptOutcome | apps/ios/Sources/QuranRecitationApp/Backend/AuthHTTPClient.swift:56-83 | A send ends with the response unless it was a 401, and with a failure without one; the first 401 waits for the shared rotation, the second ends the session |
| RefreshClient.ResumeOutcome | apps/ios/Sources/QuranRecitationApp/Backend/AuthHTTPClient.swift:61-75 | A new token is tried once, a rejection ends the session, anything else is a failure that leaves it |
| RefreshClient.RotationOutcome | apps/ios/Sources/QuranRecitationApp/Backend/TokenRefresher.swift:57-64 | What a rotation comes to for every answer, and that only a new token changes the store |
| RefreshClient.OnlyOwnEvents | apps/ios/Sources/QuranRecitationApp/Backend/AuthHTTPClient.swift:50-84 | Nothing but its own attempts and its rotation moves a send |
| RefreshClient.EventKeeps | apps/ios/Sources/QuranRecitationApp/Backend/TokenRefresher.swift:45-64 | Every event keeps the client's invariant beside the server's |
| RefreshClient.AtMostOneRotation | apps/ios/Sources/QuranRecitationApp/Backend/TokenRefresher.swift:38-55 | At any moment of any run at most one rotation is under way and no caller is past its second attempt |
| RefreshClient.ReplayIff | apps/ios/Sources/QuranRecitationApp/Backend/TokenRefresher.swift:57-64 | The server takes a request of the client for a replay exactly if its row is still known and an earlier request with the token was redeemed: in vain, if the client waits for this one, or in any way, if it has given up on it |
| RefreshClient.CutShortIsAReplayIff | apps/bff/src/rest/rest.ts:254-275 | Presenting a token again after its rotation was cut short is a replay exactly if it was genuine, unexpired and its row unused and unrevoked |
| RefreshClient.NeverAReplay | apps/ios/Sources/QuranRecitationApp/Backend/TokenRefresher.swift:3-26 | While no rotation is cut short, every answer arrives and no request given up on is handled, no request of the client is ever taken for a replay, whatever else happens |
| RefreshClient.NeverAReplayFromStart | apps/ios/Sources/QuranRecitationApp/Backend/TokenRefresher.swift:3-26 | The same for a client that starts without tokens beside a server that started from empty tables |
| RefreshSessions.RunFollows | apps/ios/Sources/QuranRecitationApp/Backend/TokenRefresher.swift:57-64 | Over any run without a further change of session the token store follows the rotation under way |
| RefreshSessions.SessionChangeStandsIff | apps/ios/Sources/QuranRecitationApp/Backend/AuthHTTPClient.swift:61-73 | Once everybody has resumed, a sign-out during a rotation stands exactly if no new token came, a sign-in exactly if neither a new token nor a rejection came; the store then holds the old session's next token, or nothing |
| RefreshSessions.UnstartedRotationFollows | apps/ios/Sources/QuranRecitationApp/Backend/TokenRefresher.swift:57-60 | A rotation that starts after the change ends with a token of the user signed in, or with none if it is rejected |
| RefreshSessions.SecondAttemptStandsIff | apps/ios/Sources/QuranRecitationApp/Backend/AuthHTTPClient.swift:75-82 | A session change stands when an older second attempt returns exactly if it is not refused or the change was a sign-out |
| RefreshSessions.OlderWaiterStandsIff | apps/ios/Sources/QuranRecitationApp/Backend/AuthHTTPClient.swift:61-73 | The same for a caller that still waits for an earlier rotation |
| RefreshRuns.SignOutIsUndone | apps/ios/Sources/QuranRecitationApp/Backend/TokenRefresher.swift:61-62 | A run in which an arriving token signs the user back in |
| RefreshRuns.SignInIsOverwritten | apps/ios/Sources/QuranRecitationApp/Backend/TokenRefresher.swift:61-62 | A run in which another user's sign-in is overwritten by the previous user's token |
| RefreshRuns.SignInIsRejected | apps/ios/Sources/QuranRecitationApp/Backend/AuthHTTPClient.swift:64-68 | A run in which the old session's rejection signs another user out |
| RefreshRuns.SecondRefusalSignsOut | apps/ios/Sources/QuranRecitationApp/Backend/AuthHTTPClient.swift:76-82 | A run in which the old session's second 401 signs another user out |
| RefreshRuns.LateRequestIsAReplay | apps/ios/Sources/QuranRecitationApp/Backend/TokenRefresher.swift:57-64 | A run without a lost answer in which a request given up on is a replay |
| RefreshRuns.LostAnswerIsAReplay | apps/ios/Sources/QuranRecitationApp/Backend/TokenRefresher.swift:57-64 | A run in which one lost answer makes the next rotation a replay |
| RefreshActor.Actor.Refresh | apps/ios/Sources/QuranRecitationApp/Backend/TokenRefresher.swift:45-53 | Joins the rotation under way or starts one |
| RefreshActor.Actor.PerformRefresh | apps/ios/Sources/QuranRecitationApp/Backend/TokenRefresher.swift:57-61 | Presents the stored token, or fails without one |
| RefreshActor.Actor.RefreshAnswered | apps/ios/Sources/QuranRecitationApp/Backend/TokenRefresher.swift:61-63 | Stores the rotated pair before returning it; a 401 is a rejection, any other failure transient |
| RefreshActor.Actor.RefreshFailed | apps/ios/Sources/QuranRecitationApp/Backend/TokenRefresher.swift:61-61 | Without an answer the rotation fails and the store stays |
| RefreshActor.Actor.AttemptReturned | apps/ios/Sources/QuranRecitationApp/Backend/AuthHTTPClient.swift:56-83 | The first 401 asks for a rotation, the second ends the session, anything else is returned |
| RefreshActor.Actor.Resumed | apps/ios/Sources/QuranRecitationApp/Backend/AuthHTTPClient.swift:61-75 | After the rotation: retry, sign out when it was rejected, or fail without signing out |
| BestScores.TableHoldsTop | apps/bff/src/me/storage.ts:125-158 | After any deliveries a row exists exactly for the keys written and holds a write with the largest score |
| BestScores.DeliveriesCommute | apps/bff/src/me/storage.ts:133-139 | Reordering and redelivery change no key and no score |
| BestScores.RowsCommute | apps/bff/src/me/storage.ts:144-149 | If the writes of the largest score agree on the time, reordering and redelivery change nothing in the row |
| BestScores.TimesCommuteIff | apps/bff/src/me/storage.ts:144-149 | Any number of writes leave the same row, time included, in every order exactly when those of the largest score agree on the time |
| BestScores.CacheHoldsFirstTop | apps/web/app/lib/storage.ts:192-200 | After any scores recorded in a cache it has exactly the keys recorded, each with the first of its entries of the largest score |
| BestScores.CacheIsTheTable | apps/bff/src/me/storage.ts:133-139 | A cache that records what the server receives holds what the server holds |
| BestScores.SendsIff | apps/web/app/lib/storage.ts:196-202 | The browser sends a score exactly if it beats every score its cache was given for the verse; the phone sends every score |
| BestScores.FetchShowsServer | apps/web/app/lib/storage.ts:108-118 | A stored fetch shows what the server held when it answered |
| BestScores.StepKeeps | apps/web/app/lib/storage.ts:108-118 | After every event, failed writes included, every recorded or cached score is covered by the server or by a write that has not arrived, and the server holds only what arrived |
| BestScores.HoldsLargestArrived | apps/bff/src/me/storage.ts:125-158 | In every state of every run the server holds for every verse the largest score that arrived |
| BestScores.ConvergesIff | apps/web/app/lib/storage.ts:191-203 | Once nothing is pending the server holds the largest score ever recorded for a verse exactly if every failed write of it was matched by one that arrived, whatever the interleaving |
| BestScores.Converges | apps/web/app/lib/storage.ts:191-203 | In particular in every run in which no write of the verse fails |
| BestScores.RecordCoversIff | apps/web/app/lib/storage.ts:191-203 | A recorded score is on the server or on its way exactly if the call sent it or as much was there already |
| BestScores.RefreshRepairs | apps/web/app/lib/storage.ts:29-34 | From the next stored refresh on, until another write of the verse fails, no recorded score is lost to suppression |
| BestScores.FailedWriteIsNotRepaired | apps/web/app/lib/storage.ts:196-202 | A run in which a failed write followed by a lower score leaves the server with neither |
| BestScoreStores.ServerTable.UpsertBestScore | apps/bff/src/me/storage.ts:125-158 | Merges the row in place and returns what is stored |
| BestScoreStores.BrowserStorage.RecordBestScore | apps/web/app/lib/storage.ts:191-203 | Drops scores when signed out or no improvement, otherwise caches and sends |
| BestScoreStores.BrowserStorage.BeginRefresh | apps/web/app/lib/storage.ts:84-111 | Fetches only when signed in and the interval has passed, and restarts the throttle first |
| BestScoreStores.RecordOnDevice | apps/web/app/lib/storage.ts:191-203 | What the browser stores and sends is what the system's step does for that device |
| BestScoreStores.RefreshOnDevice | apps/web/app/lib/storage.ts:108-118 | So is what it does with a fetched table |
| BestScoreStores.ClearOnDevice | apps/web/app/lib/storage.ts:146-151 | And the wipe at a change of session |
| HistoryStore.KeyRoundTrip | apps/ios/Sources/QuranRecitationApp/Storage/RemoteSyncedHistoryStore.swift:221-235 | A printed key parses back if the surah id is not empty and has no colon and the number is positive; any other is not a key |
| HistoryStore.SignedTextParses | apps/ios/Sources/QuranRecitationApp/Storage/RemoteSyncedHistoryStore.swift:221-235 | Signs and leading zeros of the number are read |
| HistoryStore.KeyTextsDiffer | apps/ios/Sources/QuranRecitationApp/Storage/InMemoryHistoryStore.swift:40-44 | Two verses never share a key text |
| HistoryStore.LogIsNewest | apps/ios/Sources/QuranRecitationApp/Storage/InMemoryHistoryStore.swift:50-55 | The capped log is always the newest fifty of everything recorded, newest first |
| HistoryStore.ReplayRebuilds | apps/ios/Sources/QuranRecitationApp/Storage/RemoteSyncedHistoryStore.swift:200-205 | Replaying the server's newest-first list oldest first rebuilds it |
| HistoryStore.RefillIsTheTable | apps/ios/Sources/QuranRecitationApp/Storage/RemoteSyncedHistoryStore.swift:191-199 | After a refresh the score cache is the server's table without the rows whose key does not parse |
| HistoryStore.InMemoryHistoryStore.RecordBestScore | apps/ios/Sources/QuranRecitationApp/Storage/InMemoryHistoryStore.swift:40-44 | Stores only an improvement; `BestScores.CacheHoldsFirstTop` says what any sequence of calls leaves |
| HistoryStore.InMemoryHistoryStore.RecordAttempt | apps/ios/Sources/QuranRecitationApp/Storage/InMemoryHistoryStore.swift:50-55 | Puts the attempt first and cuts at fifty |
| HistoryStore.InMemoryHistoryStore.RefreshFromRemote | apps/ios/Sources/QuranRecitationApp/Storage/RemoteSyncedHistoryStore.swift:182-205 | Leaves the server's last practice, the refilled scores and the server's newest fifty attempts |
| HistoryStore.RecordOnPhone | apps/ios/Sources/QuranRecitationApp/Storage/RemoteSyncedHistoryStore.swift:90-98 | What the phone stores and sends is what the system's step does for that device |
| ScoringQuota.Limiter.ConsumeScoringQuota | apps/bff/src/jobs/scoringQuota.ts:13-21 | Accepts unless sixty accepted jobs are in the window, and prunes the user's list either way |
| ScoringQuota.PruningForgetsNothingIff | apps/bff/src/jobs/scoringQuota.ts:15-15 | A pruning is never noticed later exactly if every time of the later window was in the window of the pruning; always so while the clock runs forward |
| ScoringQuota.PrunedIsExact | apps/bff/src/jobs/scoringQuota.ts:13-21 | Under such a clock the pruned lists decide every call of every run as the whole acceptance history would |
| ScoringQuota.PrunedIsRemembered | apps/bff/src/jobs/scoringQuota.ts:13-21 | After any run the pruned list is exactly the user's accepted calls that no later call of theirs was a window or more away from |
| ScoringQuota.DecidesAlikeIff | apps/bff/src/jobs/scoringQuota.ts:13-21 | After any run, whatever the clock did, a call is decided as the user's whole acceptance history would exactly if the window holds fewer than sixty of it, or still sixty without the forgotten ones |
| ScoringQuota.AtMostSixtyPerHour | apps/bff/src/jobs/scoringQuota.ts:1-21 | Under a clock that runs forward, of the calls the pruned limiter accepts for one user no hour, wherever it ends, holds more than sixty |
| ScoringQuota.OthersUntouched | apps/bff/src/jobs/scoringQuota.ts:15-20 | A call touches no other user's list |
| ScoringQuota.ClockSetBackDiffers | apps/bff/src/jobs/scoringQuota.ts:15-15 | With the clock set back the pruned list accepts what the whole history refuses |

## Left out

- HTTP, gRPC, SQL text, object storage, speech recognition, telemetry and logging: plumbing over libraries; tables are maps and handlers are steps.
- Interleaving of one handler's SQL statements with another's: handlers are atomic here, so two overlapping refreshes of one token, and the retry after a unique violation in the Google handler, are not modelled.
- JWT signing, bcrypt, SHA-256 and Google's token verification: a token carries a flag that says it is genuine, and a hash remembers its password.
- Request validation by schemas, and failures that turn into status 500 to 503, other than the two steps named under Assumptions. In particular a sign-in or sign-up whose token cannot be inserted, which has already reactivated or created the row, is not a step here.
- float64 rounding in rates, scores and timestamps; invalid UTF-8 in texts; the invalid bytes a string decoder would replace.
- The order and the special keys of JavaScript objects: an object is the list of its entries in order of first assignment.
- The `fromJSON`, `toJSON`, `fromPartial` and `create` helpers of the generated messages, and the near-identical messages of the surah service.
- The date part of a timestamp's JSON text: only the fraction of the seconds and the zone are modelled, and offsets beyond 23:59, which the pattern lets through to the date parser, count as invalid.
- Groups are skipped by wire type; their field numbers are not compared.
- Switching accounts on one browser while a fetch of the previous account is still on its way: a device keeps one user here.
- Failures of the browser's own storage, and the last-practised and attempt caches of the browser, which follow the same pattern as the score cache without a merge.
- The per-surah maximum of best scores, reference audio, classification, suggestion selection, pagination and cookies: their promises can be read off their bodies.
- JsonStreams.BinaryReader.Decode: one method over a table of fields stands for the generated decoders, which differ in that table only.
- RefreshClient.NeverAReplay: an insert that fails, an answer that is lost and a request handled after it was given up on are excluded, because each can cause a replay; the suspension points are steps of a transition system, so the runtime's own task scheduling is not modelled beyond them.
