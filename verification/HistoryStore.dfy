/** The device's history: a newest-first attempt log capped at fifty entries, a best-score cache keyed
    by "surah:ayah" text, and the refresh that rebuilds both from the server. */
module HistoryStore {
  import opened Common
  import opened BestScores
  import opened DecimalText

  const HISTORY_LIMIT := 50

  datatype LastPracticed = LastPracticed(surahId: string, ayahNumber: int, practicedAt: int)

  datatype Attempt = Attempt(id: string, surahId: string, ayahNumber: int, createdAt: int)

  type Scores = map<string, Entry>

  // ---------------------------------------------------------------- key text

  function IntText(n: int): string {
    if n < 0 then "-" + Decimal(-n) else Decimal(n)
  }

  function KeyText(surahId: string, ayahNumber: int): string {
    surahId + ":" + IntText(ayahNumber)
  }

  const MAX_INT := 0x7FFF_FFFF_FFFF_FFFF

  /** An optional sign and digits, within the 64-bit range. */
  function ParseInt(s: string): Option<int> {
    var negative := s != "" && s[0] == '-';
    var digits := if s != "" && (s[0] == '-' || s[0] == '+') then s[1..] else s;
    match ParseDigits(digits)
    case Number(n) =>
      var magnitude: int := n;
      var value := if negative then -magnitude else magnitude;
      if -MAX_INT - 1 <= value <= MAX_INT then Some(value) else None
    case NotANumber => None
  }

  function FirstColon(s: string): (i: nat)
    ensures i <= |s|
    ensures i < |s| ==> s[i] == ':'
    ensures forall k :: 0 <= k < i ==> s[k] != ':'
  {
    if s == "" || s[0] == ':' then 0 else 1 + FirstColon(s[1..])
  }

  /** A plus sign and leading zeros are read over. */
  lemma {:induction false} SignedTextParses(n: nat, zeros: nat)
    requires n <= MAX_INT
    ensures ParseInt("+" + Decimal(n)) == Some(n) && ParseInt("-" + Decimal(n)) == Some(-(n as int))
    ensures ParseInt(seq(zeros, _ => '0') + Decimal(n)) == Some(n)
  {
    DecimalParses(n);
    assert ("+" + Decimal(n))[1..] == Decimal(n) && ("-" + Decimal(n))[1..] == Decimal(n);
    LeadingZeros(Decimal(n), zeros);
    var text := seq(zeros, _ => '0') + Decimal(n);
    assert text[0] == if zeros > 0 then '0' else Decimal(n)[0];
    assert IsDigit(Decimal(n)[0]);
  }

  /** A key that is not two parts, or whose parts are not a surah and a positive number, is skipped. */
  function ParseBestScoreKey(key: string): Option<(string, int)> {
    var i := FirstColon(key);
    if i == |key| || i == 0 then None
    else match ParseInt(key[i + 1..])
      case Some(n) => if n >= 1 then Some((key[..i], n)) else None
      case None => None
  }

  /** A colon cannot be part of the number. */
  lemma {:induction false} ColonDoesNotParse(s: string, k: nat)
    requires k < |s| && s[k] == ':'
    ensures ParseInt(s) == None
  {
    if s[0] == '-' || s[0] == '+' {
      assert s[1..][k - 1] == ':';
      OnlyDigitsParse(s[1..], k - 1);
    } else {
      OnlyDigitsParse(s, k);
    }
  }

  lemma {:induction false} IntTextParses(n: int)
    ensures ParseInt(IntText(n)) == if -MAX_INT - 1 <= n <= MAX_INT then Some(n) else None
  {
    hide ParseDigits, Decimal;
    var digits := Decimal(if n < 0 then -n else n);
    DecimalParses(if n < 0 then -n else n);
    if n < 0 {
      assert IntText(n)[1..] == digits;
    } else {
      assert IsDigit(digits[0]);
    }
  }

  predicate IsProper(surahId: string, ayahNumber: int) {
    surahId != "" && ':' !in surahId && 1 <= ayahNumber <= MAX_INT
  }

  /** A printed key parses back if the surah id is not empty and has no colon, and the number is a
      positive machine integer; any other printed key does not parse at all. */
  lemma {:induction false} KeyRoundTrip(surahId: string, ayahNumber: int)
    ensures ParseBestScoreKey(KeyText(surahId, ayahNumber)) ==
      if IsProper(surahId, ayahNumber) then Some((surahId, ayahNumber)) else None
  {
    hide IntText, ParseInt;
    var key := KeyText(surahId, ayahNumber);
    var i := FirstColon(key);
    assert key[|surahId|] == ':';
    assert i <= |surahId|;
    if ':' in surahId {
      var k :| 0 <= k < |surahId| && surahId[k] == ':';
      assert key[k] == ':';
      assert key[i + 1..][|surahId| - i - 1] == ':';
      ColonDoesNotParse(key[i + 1..], |surahId| - i - 1);
    } else {
      assert forall k :: 0 <= k < |surahId| ==> key[k] == surahId[k];
      assert key[i + 1..] == IntText(ayahNumber) && key[..i] == surahId;
      IntTextParses(ayahNumber);
    }
  }

  lemma {:induction false} IntTextHasNoColon(n: int, k: nat)
    requires k < |IntText(n)|
    ensures IntText(n)[k] != ':'
  {
    DecimalParses(if n < 0 then -n else n);
  }

  lemma {:induction false} IntTextDiffers(a: int, b: int)
    requires IntText(a) == IntText(b)
    ensures a == b
  {
    DecimalParses(if a < 0 then -a else a);
    DecimalParses(if b < 0 then -b else b);
    if a < 0 { assert IntText(a)[1..] == Decimal(-a); }
    if b < 0 { assert IntText(b)[1..] == Decimal(-b); }
    assert a >= 0 ==> IsDigit(IntText(a)[0]);
    assert b >= 0 ==> IsDigit(IntText(b)[0]);
  }

  /** Two verses never share a key text: its last colon ends the surah id. */
  lemma {:induction false} KeyTextsDiffer(s: string, a: int, t: string, b: int)
    requires KeyText(s, a) == KeyText(t, b)
    ensures s == t && a == b
  {
    hide IntText;
    var text := KeyText(s, a);
    assert text[|s|] == ':' && text[|t|] == ':';
    if |s| < |t| {
      assert IntText(a)[|t| - |s| - 1] == text[|t|];
      IntTextHasNoColon(a, |t| - |s| - 1);
    } else if |t| < |s| {
      assert IntText(b)[|s| - |t| - 1] == text[|s|];
      IntTextHasNoColon(b, |s| - |t| - 1);
    }
    assert s == text[..|s|] && t == text[..|t|];
    assert IntText(a) == text[|s| + 1..] && IntText(b) == text[|t| + 1..];
    IntTextDiffers(a, b);
  }

  // ---------------------------------------------------------------- the capped log

  /** The first fifty entries. */
  function Newest<T>(s: seq<T>): seq<T> {
    if |s| > HISTORY_LIMIT then s[..HISTORY_LIMIT] else s
  }

  lemma NewestOfNewest<T>(x: T, s: seq<T>)
    ensures Newest([x] + Newest(s)) == Newest([x] + s)
  {
  }

  /** The log after recording these attempts one after another. */
  function LogAfter(recorded: seq<Attempt>): seq<Attempt> {
    if recorded == [] then [] else Newest([recorded[|recorded| - 1]] + LogAfter(recorded[..|recorded| - 1]))
  }

  /** Capping at every step loses nothing the cap would have kept: the log is always the newest fifty
      of everything recorded, newest first. */
  lemma {:induction false} LogIsNewest(recorded: seq<Attempt>)
    ensures LogAfter(recorded) == Newest(Reversed(recorded))
    ensures |LogAfter(recorded)| == if |recorded| < 50 then |recorded| else 50
    ensures forall k :: 0 <= k < |LogAfter(recorded)| ==> LogAfter(recorded)[k] == recorded[|recorded| - 1 - k]
  {
    if recorded != [] {
      var before, last := recorded[..|recorded| - 1], recorded[|recorded| - 1];
      assert recorded == before + [last];
      LogIsNewest(before);
      ReversedLast(before, last);
      NewestOfNewest(last, Reversed(before));
    }
  }

  /** Replaying the server's newest-first list oldest first rebuilds that list. */
  lemma ReplayRebuilds(attempts: seq<Attempt>)
    ensures LogAfter(Reversed(attempts)) == Newest(attempts)
    ensures |attempts| <= 50 ==> LogAfter(Reversed(attempts)) == attempts
  {
    LogIsNewest(Reversed(attempts));
    ReversedTwice(attempts);
  }

  // ---------------------------------------------------------------- the score cache

  /** The cache refilled from the entries of the server's answer, in whatever order they come. */
  function Refill(entries: seq<(string, Entry)>): Scores {
    if entries == [] then map[]
    else
      var before, last := Refill(entries[..|entries| - 1]), entries[|entries| - 1];
      match ParseBestScoreKey(last.0)
      case None => before
      case Some((surahId, n)) => Improve(before, KeyText(surahId, n), last.1)
  }

  /** A row as the server sends it. */
  datatype ServerRow = ServerRow(surahId: string, ayahNumber: int, entry: Entry)

  function Sent(rows: seq<ServerRow>): seq<(string, Entry)> {
    if rows == [] then []
    else
      var r := rows[|rows| - 1];
      Sent(rows[..|rows| - 1]) + [(KeyText(r.surahId, r.ayahNumber), r.entry)]
  }

  /** The row's key can be read back; the refresh skips other rows. */
  predicate ProperRow(r: ServerRow) {
    IsProper(r.surahId, r.ayahNumber)
  }

  /** The primary key: no two rows for one verse. */
  predicate RowsDistinct(rows: seq<ServerRow>) {
    forall i, j :: 0 <= i < j < |rows| ==>
      (rows[i].surahId, rows[i].ayahNumber) != (rows[j].surahId, rows[j].ayahNumber)
  }

  function RowKey(r: ServerRow): string {
    KeyText(r.surahId, r.ayahNumber)
  }

  lemma {:induction false} KeysDiffer(a: ServerRow, b: ServerRow)
    requires ProperRow(a) && ProperRow(b) && (a.surahId, a.ayahNumber) != (b.surahId, b.ayahNumber)
    ensures RowKey(a) != RowKey(b)
  {
    KeyRoundTrip(a.surahId, a.ayahNumber);
    KeyRoundTrip(b.surahId, b.ayahNumber);
  }

  lemma {:induction false} RefillLast(rows: seq<ServerRow>)
    requires rows != []
    ensures var before, r := Refill(Sent(rows[..|rows| - 1])), rows[|rows| - 1];
      Refill(Sent(rows)) == if ProperRow(r) then Improve(before, RowKey(r), r.entry) else before
  {
    var sent, r := Sent(rows), rows[|rows| - 1];
    assert sent[..|sent| - 1] == Sent(rows[..|rows| - 1]);
    KeyRoundTrip(r.surahId, r.ayahNumber);
  }

  lemma {:induction false} RefillKeys(rows: seq<ServerRow>)
    ensures Refill(Sent(rows)).Keys == set k | 0 <= k < |rows| && ProperRow(rows[k]) :: RowKey(rows[k])
  {
    hide RowKey, Refill, Sent, ProperRow;
    if rows == [] {
      NothingSent();
    } else {
      var before, r := rows[..|rows| - 1], rows[|rows| - 1];
      RefillKeys(before);
      RefillLast(rows);
      assert (set k | 0 <= k < |rows| && ProperRow(rows[k]) :: RowKey(rows[k])) ==
        (set k | 0 <= k < |before| && ProperRow(before[k]) :: RowKey(before[k]))
        + (if ProperRow(r) then {RowKey(r)} else {});
    }
  }

  lemma {:induction false} LastKeyIsNew(rows: seq<ServerRow>)
    requires rows != [] && RowsDistinct(rows) && ProperRow(rows[|rows| - 1])
    ensures RowKey(rows[|rows| - 1]) !in Refill(Sent(rows[..|rows| - 1]))
  {
    hide RowKey, Refill, Sent, ProperRow;
    var before, r := rows[..|rows| - 1], rows[|rows| - 1];
    assert forall k :: 0 <= k < |before| ==> before[k] == rows[k];
    RefillKeys(before);
    forall k | 0 <= k < |before| && ProperRow(before[k])
      ensures RowKey(before[k]) != RowKey(r)
    {
      assert RowsDistinct(rows);
      KeysDiffer(before[k], r);
    }
  }

  /** After a refresh the cache is the server's table: every row whose key can be read under that key,
      and nothing else; one bad row strands no other. */
  lemma {:induction false} RefillIsTheTable(rows: seq<ServerRow>)
    requires RowsDistinct(rows)
    ensures Refill(Sent(rows)).Keys == set k | 0 <= k < |rows| && ProperRow(rows[k]) :: RowKey(rows[k])
    ensures forall k :: 0 <= k < |rows| && ProperRow(rows[k]) ==>
      RowKey(rows[k]) in Refill(Sent(rows)) && Refill(Sent(rows))[RowKey(rows[k])] == rows[k].entry
  {
    hide RowKey, Refill, Sent, ProperRow;
    RefillKeys(rows);
    if rows != [] {
      var before := rows[..|rows| - 1];
      RefillIsTheTable(before);
      RefillLast(rows);
      if ProperRow(rows[|rows| - 1]) { LastKeyIsNew(rows); }
      assert forall k :: 0 <= k < |before| ==> before[k] == rows[k];
    }
  }

  lemma NothingSent()
    ensures Refill(Sent([])) == map[]
  {
  }

  // ---------------------------------------------------------------- the store itself

  class InMemoryHistoryStore {
    var lastPracticed: Option<LastPracticed>
    var bestScores: Scores
    var attempts: seq<Attempt>

    constructor ()
      ensures lastPracticed == None && bestScores == map[] && attempts == []
    {
      lastPracticed, bestScores, attempts := None, map[], [];
    }

    method SetLastPracticed(entry: LastPracticed)
      modifies this`lastPracticed
      ensures lastPracticed == Some(entry)
    {
      lastPracticed := Some(entry);
    }

    method RecordBestScore(surahId: string, ayahNumber: int, score: int, achievedAt: int)
      modifies this`bestScores
      ensures bestScores == Improve(old(bestScores), KeyText(surahId, ayahNumber), Entry(score, achievedAt))
    {
      var key := KeyText(surahId, ayahNumber);
      if key in bestScores && bestScores[key].score >= score {
        return;
      }
      bestScores := bestScores[key := Entry(score, achievedAt)];
    }

    /** Newest first; what falls past the limit is dropped. */
    method RecordAttempt(attempt: Attempt)
      modifies this`attempts
      ensures attempts == Newest([attempt] + old(attempts))
    {
      attempts := [attempt] + attempts;
      if |attempts| > HISTORY_LIMIT {
        attempts := attempts[..HISTORY_LIMIT];
      }
    }

    method Clear()
      modifies this
      ensures lastPracticed == None && bestScores == map[] && attempts == []
    {
      lastPracticed, bestScores, attempts := None, map[], [];
    }

    /** Wipes the cache and refills it from the server's answer: scores in any order, attempts
        oldest first. */
    method RefreshFromRemote(last: Option<LastPracticed>, scores: seq<(string, Entry)>, remote: seq<Attempt>)
      modifies this
      ensures lastPracticed == last
      ensures bestScores == Refill(scores)
      ensures attempts == Newest(remote)
    {
      Clear();
      if last.Some? {
        SetLastPracticed(last.value);
      }
      for k := 0 to |scores|
        invariant lastPracticed == last && attempts == []
        invariant bestScores == Refill(scores[..k])
      {
        var (key, entry) := scores[k];
        assert scores[..k + 1][..k] == scores[..k];
        match ParseBestScoreKey(key) {
          case None =>
          case Some((surahId, ayahNumber)) =>
            RecordBestScore(surahId, ayahNumber, entry.score, entry.achievedAt);
        }
      }
      assert scores[..|scores|] == scores;
      for k := |remote| downto 0
        invariant lastPracticed == last && bestScores == Refill(scores)
        invariant attempts == Newest(remote[k..])
      {
        NewestOfNewest(remote[k], remote[k + 1..]);
        assert remote[k..] == [remote[k]] + remote[k + 1..];
        RecordAttempt(remote[k]);
      }
    }
  }

  // ---------------------------------------------------------------- the phone as a device

  /** The store's scores are those of a device's cache, under their key texts. */
  ghost predicate Shows(scores: Scores, cache: Table) {
    forall k: Key ::
      (k in cache <==> KeyText(k.surahId, k.ayahNumber) in scores)
      && (k in cache ==> scores[KeyText(k.surahId, k.ayahNumber)] == cache[k])
  }

  lemma {:induction false} ImproveShows(scores: Scores, cache: Table, w: Write)
    requires Shows(scores, cache)
    ensures Shows(Improve(scores, KeyText(w.key.surahId, w.key.ayahNumber), w.entry), CacheRecord(cache, w))
  {
    var scores' := Improve(scores, KeyText(w.key.surahId, w.key.ayahNumber), w.entry);
    forall k: Key
      ensures k in CacheRecord(cache, w) <==> KeyText(k.surahId, k.ayahNumber) in scores'
      ensures k in CacheRecord(cache, w) ==> scores'[KeyText(k.surahId, k.ayahNumber)] == CacheRecord(cache, w)[k]
    {
      assert Shows(scores, cache);
      if KeyText(k.surahId, k.ayahNumber) == KeyText(w.key.surahId, w.key.ayahNumber) {
        KeyTextsDiffer(k.surahId, k.ayahNumber, w.key.surahId, w.key.ayahNumber);
        assert k == w.key;
      }
    }
  }

  /** The phone records in its store and sends the score whatever the store made of it, as the system's
      step does for a phone. */
  method RecordOnPhone(store: InMemoryHistoryStore, ghost s: System, ghost d: DeviceId, surahId: string,
                       ayahNumber: int, score: int, achievedAt: int)
    returns (put: Write)
    requires d in s.devices && s.devices[d].kind == Phone && Shows(store.bestScores, s.devices[d].cache)
    modifies store
    ensures put == Write(Key(surahId, ayahNumber), Entry(score, achievedAt))
    ensures var s' := Step(s, Record(d, put));
      && Shows(store.bestScores, s'.devices[d].cache)
      && s'.pending == s.pending + multiset{put} && s'.recorded == s.recorded + {put}
      && s'.server == s.server && s'.devices == s.devices[d := s'.devices[d]]
    ensures store.lastPracticed == old(store.lastPracticed) && store.attempts == old(store.attempts)
  {
    put := Write(Key(surahId, ayahNumber), Entry(score, achievedAt));
    ImproveShows(store.bestScores, s.devices[d].cache, put);
    store.RecordBestScore(surahId, ayahNumber, score, achievedAt);
  }
}
