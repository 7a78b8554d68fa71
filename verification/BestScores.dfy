/** Best scores written by any number of devices through caches into one MAX-merging table. */
module BestScores {
  import opened Common

  /** A verse of a surah, for one user. */
  datatype Key = Key(surahId: string, ayahNumber: int)

  datatype Entry = Entry(score: int, achievedAt: int)

  type Table = map<Key, Entry>

  datatype Write = Write(key: Key, entry: Entry)

  /** The merge of a write into a row: the larger score, and the time that goes with it. */
  function Merge(row: Option<Entry>, e: Entry): Entry {
    match row
    case None => e
    case Some(b) =>
      Entry(if e.score > b.score then e.score else b.score, if e.score > b.score then e.achievedAt else b.achievedAt)
  }

  function Row(t: Table, k: Key): Option<Entry> {
    if k in t then Some(t[k]) else None
  }

  function Upsert(t: Table, w: Write): Table {
    t[w.key := Merge(Row(t, w.key), w.entry)]
  }

  function UpsertAll(t: Table, writes: seq<Write>): Table
    decreases |writes|
  {
    if writes == [] then t else UpsertAll(Upsert(t, writes[0]), writes[1..])
  }

  // ---------------------------------------------------------------- the table alone

  /** `e` is among the writes for `k` and none of them has a larger score. */
  ghost predicate IsTop(writes: seq<Write>, k: Key, e: Entry) {
    && Write(k, e) in writes
    && forall w :: w in writes && w.key == k ==> w.entry.score <= e.score
  }

  lemma {:induction false} UpsertAllLast(t: Table, writes: seq<Write>, w: Write)
    ensures UpsertAll(t, writes + [w]) == Upsert(UpsertAll(t, writes), w)
    decreases |writes|
  {
    if writes == [] {
      assert writes + [w] == [w] && [w][1..] == [];
    } else {
      assert (writes + [w])[1..] == writes[1..] + [w];
      UpsertAllLast(Upsert(t, writes[0]), writes[1..], w);
    }
  }

  /** After any deliveries a row exists exactly for the keys written, and holds a write with the
      largest score. */
  lemma {:induction false} TableHoldsTop(writes: seq<Write>, k: Key)
    ensures k in UpsertAll(map[], writes) <==> exists e :: Write(k, e) in writes
    ensures k in UpsertAll(map[], writes) ==> IsTop(writes, k, UpsertAll(map[], writes)[k])
    decreases |writes|
  {
    if writes != [] {
      var before, w := writes[..|writes| - 1], writes[|writes| - 1];
      assert writes == before + [w];
      UpsertAllLast(map[], before, w);
      TableHoldsTop(before, k);
      assert forall x :: x in writes <==> x in before || x == w;
      if k == w.key { assert Write(k, w.entry) in writes; }
    }
  }

  /** The same writes are in both sequences, however often and in whatever order. */
  ghost predicate SameWrites(a: seq<Write>, b: seq<Write>) {
    forall w :: w in a <==> w in b
  }

  /** Reordering and redelivery do not change any score: two delivery sequences with the same writes
      in them leave the same keys and scores. */
  lemma {:induction false} DeliveriesCommute(a: seq<Write>, b: seq<Write>, k: Key)
    requires SameWrites(a, b)
    ensures k in UpsertAll(map[], a) <==> k in UpsertAll(map[], b)
    ensures k in UpsertAll(map[], a) ==> UpsertAll(map[], a)[k].score == UpsertAll(map[], b)[k].score
  {
    TableHoldsTop(a, k);
    TableHoldsTop(b, k);
  }

  // ---------------------------------------------------------------- the time of a best score

  /** The row for `k` after these deliveries. */
  function RowAfter(writes: seq<Write>, k: Key): Option<Entry> {
    Row(UpsertAll(map[], writes), k)
  }

  /** The writes of the largest score for `k` all carry the same time. */
  ghost predicate TopsAgree(writes: seq<Write>, k: Key) {
    forall x, y :: IsTop(writes, k, x) && IsTop(writes, k, y) ==> x.achievedAt == y.achievedAt
  }

  /** Whatever the order these writes arrive in, the row for `k` is the same, time included. */
  ghost predicate OrderFree(writes: seq<Write>, k: Key) {
    forall a :: multiset(a) == multiset(writes) ==> RowAfter(a, k) == RowAfter(writes, k)
  }

  /** If the writes of the largest score agree on the time, neither order nor redelivery changes
      anything in the row. */
  lemma {:induction false} RowsCommute(a: seq<Write>, b: seq<Write>, k: Key)
    requires SameWrites(a, b) && TopsAgree(a, k)
    ensures RowAfter(a, k) == RowAfter(b, k)
  {
    TableHoldsTop(a, k);
    TableHoldsTop(b, k);
    if k in UpsertAll(map[], a) {
      assert IsTop(a, k, UpsertAll(map[], b)[k]);
    }
  }

  /** The first of the writes with the largest score is the one that is kept. */
  lemma {:induction false} FirstTopStays(writes: seq<Write>, k: Key)
    requires writes != [] && writes[0].key == k && IsTop(writes, k, writes[0].entry)
    ensures RowAfter(writes, k) == Some(writes[0].entry)
    decreases |writes|
  {
    var before, last := writes[..|writes| - 1], writes[|writes| - 1];
    assert writes == before + [last];
    UpsertAllLast(map[], before, last);
    if before != [] {
      assert forall w :: w in before ==> w in writes;
      assert Write(k, before[0].entry) == before[0];
      FirstTopStays(before, k);
    }
  }

  /** Any write can be the first to arrive. */
  lemma {:induction false} CanComeFirst(writes: seq<Write>, w: Write) returns (a: seq<Write>)
    requires w in writes
    ensures a != [] && a[0] == w && multiset(a) == multiset(writes) && SameWrites(a, writes)
  {
    var i :| 0 <= i < |writes| && writes[i] == w;
    a := [w] + (writes[..i] + writes[i + 1..]);
    assert writes == writes[..i] + [w] + writes[i + 1..];
    assert forall x :: x in a <==> x in multiset(a);
    assert forall x :: x in writes <==> x in multiset(writes);
  }

  /** The row, time included, is the same in every order of delivery exactly when the writes of the
      largest score agree on the time; ties below the largest score do not matter. */
  lemma {:induction false} TimesCommuteIff(writes: seq<Write>, k: Key)
    ensures OrderFree(writes, k) <==> TopsAgree(writes, k)
  {
    hide UpsertAll, RowAfter;
    if TopsAgree(writes, k) {
      forall a | multiset(a) == multiset(writes)
        ensures RowAfter(a, k) == RowAfter(writes, k)
      {
        assert forall w :: w in a <==> w in multiset(a);
        assert forall w :: w in writes <==> w in multiset(writes);
        RowsCommute(writes, a, k);
      }
    } else {
      var x, y :| IsTop(writes, k, x) && IsTop(writes, k, y) && x.achievedAt != y.achievedAt;
      var a := CanComeFirst(writes, Write(k, x));
      var b := CanComeFirst(writes, Write(k, y));
      FirstTopStays(a, k);
      FirstTopStays(b, k);
      assert RowAfter(a, k) != RowAfter(b, k);
    }
  }

  // ---------------------------------------------------------------- devices

  /** A browser suppresses writes its cache says are no improvement, and does nothing while its gate is
      closed; a phone records and sends every score. */
  datatype Kind = Browser | Phone

  // ---------------------------------------------------------------- the caches' rule

  /** Only an improvement is stored. */
  function Improve<K>(cache: map<K, Entry>, key: K, e: Entry): map<K, Entry> {
    if key in cache && cache[key].score >= e.score then cache else cache[key := e]
  }

  function ImproveAll<K>(recorded: seq<(K, Entry)>): map<K, Entry> {
    if recorded == [] then map[]
    else
      var last := recorded[|recorded| - 1];
      Improve(ImproveAll(recorded[..|recorded| - 1]), last.0, last.1)
  }

  /** The `i`th is the first of its key's entries with the largest score. */
  ghost predicate IsFirstTop<K>(recorded: seq<(K, Entry)>, i: nat)
    requires i < |recorded|
  {
    forall j :: 0 <= j < |recorded| && recorded[j].0 == recorded[i].0 ==>
      recorded[j].1.score <= recorded[i].1.score && (j < i ==> recorded[j].1.score < recorded[i].1.score)
  }

  /** `e` is the first of the key's entries with the largest score. */
  ghost predicate HoldsFirstTop<K>(recorded: seq<(K, Entry)>, key: K, e: Entry) {
    exists i :: 0 <= i < |recorded| && recorded[i] == (key, e) && IsFirstTop(recorded, i)
  }

  /** After any scores recorded in a cache it has exactly the keys recorded, each with the first of its
      entries of the largest score. */
  lemma {:induction false} CacheHoldsFirstTop<K>(recorded: seq<(K, Entry)>, key: K)
    ensures key in ImproveAll(recorded) <==> exists i :: 0 <= i < |recorded| && recorded[i].0 == key
    ensures key in ImproveAll(recorded) ==> HoldsFirstTop(recorded, key, ImproveAll(recorded)[key])
    decreases |recorded|, 1
  {
    if recorded != [] {
      var n := |recorded| - 1;
      var before, last := recorded[..n], recorded[n];
      CacheHoldsFirstTop(before, key);
      if key == last.0 && !(key in ImproveAll(before) && ImproveAll(before)[key].score >= last.1.score) {
        LastIsTop(recorded);
        assert recorded[n] == (key, last.1);
      } else if key in ImproveAll(before) {
        var e := ImproveAll(before)[key];
        var i :| 0 <= i < |before| && before[i] == (key, e) && IsFirstTop(before, i);
        assert recorded[i] == (key, e) && IsFirstTop(recorded, i);
      }
    }
  }

  lemma {:induction false} LastIsTop<K>(recorded: seq<(K, Entry)>)
    requires recorded != []
    requires var before, last := ImproveAll(recorded[..|recorded| - 1]), recorded[|recorded| - 1];
      last.0 in before ==> before[last.0].score < last.1.score
    ensures IsFirstTop(recorded, |recorded| - 1)
    decreases |recorded|, 0
  {
    var n := |recorded| - 1;
    var before, last := recorded[..n], recorded[n];
    CacheHoldsFirstTop(before, last.0);
    forall j | 0 <= j < n && recorded[j].0 == last.0
      ensures recorded[j].1.score < last.1.score
    {
      assert before[j].0 == last.0;
      var e := ImproveAll(before)[last.0];
      var i :| 0 <= i < |before| && before[i] == (last.0, e) && IsFirstTop(before, i);
    }
  }

  /** A cache that records what the server receives, in the same order, holds what the server holds. */
  lemma {:induction false} CacheIsTheTable(writes: seq<Write>)
    ensures ImproveAll(seq(|writes|, k requires 0 <= k < |writes| => (writes[k].key, writes[k].entry)))
         == UpsertAll(map[], writes)
  {
    var recorded := seq(|writes|, k requires 0 <= k < |writes| => (writes[k].key, writes[k].entry));
    if writes != [] {
      var n := |writes| - 1;
      CacheIsTheTable(writes[..n]);
      assert recorded[..n] == seq(n, k requires 0 <= k < n => (writes[..n][k].key, writes[..n][k].entry));
      assert writes == writes[..n] + [writes[n]];
      UpsertAllLast(map[], writes[..n], writes[n]);
      var t := UpsertAll(map[], writes[..n]);
      assert Improve(t, writes[n].key, writes[n].entry) == Upsert(t, writes[n]);
    }
  }

  /** The browser sends a score exactly if it beats every score its cache was given for the verse; the
      phone sends it whatever the cache shows. */
  lemma {:induction false} SendsIff(d: Device, recorded: seq<(Key, Entry)>, w: Write)
    requires d.cache == ImproveAll(recorded)
    ensures Sends(d, w) <==>
      (d.kind == Phone
       || forall i :: 0 <= i < |recorded| && recorded[i].0 == w.key ==> recorded[i].1.score < w.entry.score)
  {
    CacheHoldsFirstTop(recorded, w.key);
  }

  // ---------------------------------------------------------------- the system

  /** `fetched` are the tables the server has sent but the device has not stored yet; fetches may
      overlap, and what they bring is stored in any order. */
  datatype Device = Device(kind: Kind, signedIn: bool, cache: Table, fetched: multiset<Table>)

  type DeviceId = nat

  /** The server, the devices, the writes on their way, and, for the statements, the writes that
      have arrived, those that failed, and every score recorded through an open gate. */
  datatype System = System(server: Table, devices: map<DeviceId, Device>, pending: multiset<Write>,
                           arrived: set<Write>, failed: multiset<Write>, recorded: set<Write>)

  datatype Event =
    | Record(d: DeviceId, w: Write)
    | Deliver(w: Write)
    | Redeliver(w: Write)
    | Fail(w: Write)
    | FetchSent(d: DeviceId)
    | FetchStored(d: DeviceId, t: Table)
    | ClearCache(d: DeviceId)
    | Gate(d: DeviceId, signedIn: bool)

  function CacheRecord(cache: Table, w: Write): Table {
    Improve(cache, w.key, w.entry)
  }

  /** Only a browser has a gate. */
  predicate Open(d: Device) {
    d.kind == Phone || d.signedIn
  }

  predicate Sends(d: Device, w: Write) {
    d.kind == Phone || !(w.key in d.cache && d.cache[w.key].score >= w.entry.score)
  }

  predicate Enabled(s: System, e: Event) {
    match e
    case Record(d, _) => d in s.devices
    case Deliver(w) => w in s.pending
    case Redeliver(w) => w in s.arrived
    case Fail(w) => w in s.pending
    case FetchSent(d) => d in s.devices && Open(s.devices[d])
    case FetchStored(d, t) => d in s.devices && t in s.devices[d].fetched
    case ClearCache(d) => d in s.devices
    case Gate(d, _) => d in s.devices
  }

  function Step(s: System, e: Event): System
    requires Enabled(s, e)
  {
    match e
    case Record(d, w) =>
      var dev := s.devices[d];
      if !Open(dev) then s
      else s.(devices := s.devices[d := dev.(cache := CacheRecord(dev.cache, w))],
              pending := if Sends(dev, w) then s.pending + multiset{w} else s.pending,
              recorded := s.recorded + {w})
    case Deliver(w) => s.(server := Upsert(s.server, w), pending := s.pending - multiset{w}, arrived := s.arrived + {w})
    case Redeliver(w) => s.(server := Upsert(s.server, w))
    case Fail(w) => s.(pending := s.pending - multiset{w}, failed := s.failed + multiset{w})
    case FetchSent(d) =>
      var dev := s.devices[d];
      s.(devices := s.devices[d := dev.(fetched := dev.fetched + multiset{s.server})])
    case FetchStored(d, t) =>
      var dev := s.devices[d];
      s.(devices := s.devices[d := dev.(cache := t, fetched := dev.fetched - multiset{t})])
    case ClearCache(d) => s.(devices := s.devices[d := s.devices[d].(cache := map[])])
    case Gate(d, signedIn) => s.(devices := s.devices[d := s.devices[d].(signedIn := signedIn)])
  }

  ghost predicate EnabledRun(s: System, events: seq<Event>)
    decreases |events|
  {
    events == [] || (Enabled(s, events[0]) && EnabledRun(Step(s, events[0]), events[1..]))
  }

  ghost function Final(s: System, events: seq<Event>): System
    requires EnabledRun(s, events)
    decreases |events|
  {
    if events == [] then s else Final(Step(s, events[0]), events[1..])
  }

  /** A fetch brings what the server holds when it answers, whatever happens until it is stored. */
  lemma {:induction false} FetchShowsServer(s: System, d: DeviceId)
    requires Enabled(s, FetchSent(d))
    ensures var s1 := Step(s, FetchSent(d));
      && s1.server == s.server && Enabled(s1, FetchStored(d, s.server))
      && Step(s1, FetchStored(d, s.server)) == s.(devices := s.devices[d := s.devices[d].(cache := s.server)])
  {
    var dev := s.devices[d];
    assert dev.fetched + multiset{s.server} - multiset{s.server} == dev.fetched;
    assert s.devices[d := dev.(fetched := dev.fetched + multiset{s.server})][d := dev.(cache := s.server)]
        == s.devices[d := dev.(cache := s.server)];
  }

  // ---------------------------------------------------------------- nothing is lost unseen

  /** The server has this score for the key, or will once the given writes have arrived. */
  ghost predicate Covered(server: Table, writes: multiset<Write>, k: Key, score: int) {
    || (k in server && server[k].score >= score)
    || exists w :: w in writes && w.key == k && w.entry.score >= score
  }

  ghost predicate AllCovered(server: Table, writes: multiset<Write>, t: Table) {
    forall k :: k in t ==> Covered(server, writes, k, t[k].score)
  }

  /** Every write that was sent and has not arrived, those that never will included. */
  function Unarrived(s: System): multiset<Write> {
    s.pending + s.failed
  }

  /** The server holds exactly the keys that arrived, each with an arrived write of the largest score. */
  ghost predicate ServerIsArrived(s: System) {
    && (forall k :: k in s.server ==> Write(k, s.server[k]) in s.arrived)
    && (forall w :: w in s.arrived ==> w.key in s.server && s.server[w.key].score >= w.entry.score)
  }

  ghost predicate RecordedCovered(s: System) {
    forall w :: w in s.recorded ==> Covered(s.server, Unarrived(s), w.key, w.entry.score)
  }

  ghost predicate OnlyRecorded(s: System) {
    forall w :: w in s.pending || w in s.arrived || w in s.failed ==> w in s.recorded
  }

  /** Caches show nothing that was not sent, and fetched tables nothing the server does not have. */
  ghost predicate DevicesCovered(s: System) {
    && (forall d :: d in s.devices ==> AllCovered(s.server, Unarrived(s), s.devices[d].cache))
    && (forall d, t :: d in s.devices && t in s.devices[d].fetched ==> AllCovered(s.server, multiset{}, t))
  }

  ghost predicate Inv(s: System) {
    RecordedCovered(s) && ServerIsArrived(s) && OnlyRecorded(s) && DevicesCovered(s)
  }

  lemma {:induction false} ServerGrows(s: System, e: Event, k: Key)
    requires Enabled(s, e) && k in s.server
    ensures k in Step(s, e).server && Step(s, e).server[k].score >= s.server[k].score
  {
  }

  lemma {:induction false} UnarrivedStays(s: System, e: Event, w: Write)
    requires Enabled(s, e) && w in Unarrived(s)
    ensures w in Unarrived(Step(s, e)) || e == Deliver(w)
  {
    hide Upsert, Sends, CacheRecord;
  }

  lemma {:induction false} CoveredStays(s: System, e: Event, k: Key, score: int)
    requires Enabled(s, e) && Covered(s.server, Unarrived(s), k, score)
    ensures Covered(Step(s, e).server, Unarrived(Step(s, e)), k, score)
  {
    hide Step, Enabled, Unarrived;
    if k in s.server && s.server[k].score >= score {
      ServerGrows(s, e, k);
    } else {
      var w :| w in Unarrived(s) && w.key == k && w.entry.score >= score;
      UnarrivedStays(s, e, w);
      if e == Deliver(w) {
        DeliveredIsCovered(s, w);
      }
    }
  }

  lemma {:induction false} DeliveredIsCovered(s: System, w: Write)
    requires Enabled(s, Deliver(w))
    ensures w.key in Step(s, Deliver(w)).server && Step(s, Deliver(w)).server[w.key].score >= w.entry.score
  {
  }

  lemma {:induction false} CacheStaysCovered(s: System, e: Event, t: Table)
    requires Enabled(s, e) && AllCovered(s.server, Unarrived(s), t)
    ensures AllCovered(Step(s, e).server, Unarrived(Step(s, e)), t)
  {
    forall k | k in t
      ensures Covered(Step(s, e).server, Unarrived(Step(s, e)), k, t[k].score)
    {
      CoveredStays(s, e, k, t[k].score);
    }
  }

  lemma {:induction false} SnapshotStaysCovered(s: System, e: Event, t: Table)
    requires Enabled(s, e) && AllCovered(s.server, multiset{}, t)
    ensures AllCovered(Step(s, e).server, multiset{}, t)
  {
    forall k | k in t
      ensures Covered(Step(s, e).server, multiset{}, k, t[k].score)
    {
      assert Covered(s.server, multiset{}, k, t[k].score);
    }
  }

  lemma SnapshotIsCovered(server: Table, writes: multiset<Write>, t: Table)
    requires AllCovered(server, multiset{}, t)
    ensures AllCovered(server, writes, t)
  {
    assert forall k :: k in t ==> Covered(server, multiset{}, k, t[k].score);
  }

  /** What recording changes about coverage: the score is covered exactly if it is sent or already was,
      and the cache shows nothing that is not covered. */
  lemma {:induction false} RecordIsCovered(server: Table, writes: multiset<Write>, dev: Device, w: Write)
    ensures var writes' := if Sends(dev, w) then writes + multiset{w} else writes;
      && (Covered(server, writes', w.key, w.entry.score) <==>
            Sends(dev, w) || Covered(server, writes, w.key, w.entry.score))
      && (AllCovered(server, writes, dev.cache) ==>
            Covered(server, writes', w.key, w.entry.score) && AllCovered(server, writes', CacheRecord(dev.cache, w)))
  {
    var writes' := if Sends(dev, w) then writes + multiset{w} else writes;
    assert Sends(dev, w) ==> w in writes';
    if AllCovered(server, writes, dev.cache) {
      if !Sends(dev, w) {
        assert Covered(server, writes, w.key, dev.cache[w.key].score);
      }
      forall k | k in CacheRecord(dev.cache, w)
        ensures Covered(server, writes', k, CacheRecord(dev.cache, w)[k].score)
      {
        if k in dev.cache && CacheRecord(dev.cache, w)[k] == dev.cache[k] {
          assert Covered(server, writes, k, dev.cache[k].score);
          assert forall x :: x in writes ==> x in writes';
        }
      }
    }
  }

  lemma UnarrivedAfterRecord(s: System, d: DeviceId, w: Write)
    requires d in s.devices && Open(s.devices[d])
    ensures Unarrived(Step(s, Record(d, w))) ==
      if Sends(s.devices[d], w) then Unarrived(s) + multiset{w} else Unarrived(s)
  {
  }

  lemma {:induction false} StepKeepsCaches(s: System, e: Event, d: DeviceId)
    requires Enabled(s, e) && DevicesCovered(s) && d in s.devices
    ensures AllCovered(Step(s, e).server, Unarrived(Step(s, e)), Step(s, e).devices[d].cache)
  {
    hide AllCovered, Unarrived, Upsert, CacheRecord, Sends;
    var s' := Step(s, e);
    CacheStaysCovered(s, e, s.devices[d].cache);
    match e
    case Record(d', w) =>
      if d' == d && Open(s.devices[d]) {
        RecordIsCovered(s.server, Unarrived(s), s.devices[d], w);
        UnarrivedAfterRecord(s, d, w);
      }
    case FetchStored(d', t) =>
      if d' == d {
        SnapshotStaysCovered(s, e, t);
        SnapshotIsCovered(s'.server, Unarrived(s'), t);
      }
    case ClearCache(d') => ServerIsCovered(s'.server, Unarrived(s'));
    case _ =>
  }

  lemma ServerIsCovered(server: Table, writes: multiset<Write>)
    ensures AllCovered(server, writes, server) && AllCovered(server, writes, map[])
  {
  }

  lemma {:induction false} StepKeepsDevices(s: System, e: Event)
    requires Enabled(s, e) && DevicesCovered(s)
    ensures DevicesCovered(Step(s, e))
  {
    hide AllCovered, Upsert, CacheRecord, Sends, Unarrived;
    var s' := Step(s, e);
    forall d | d in s'.devices
      ensures AllCovered(s'.server, Unarrived(s'), s'.devices[d].cache)
    {
      StepKeepsCaches(s, e, d);
    }
    forall d, t | d in s'.devices && t in s'.devices[d].fetched
      ensures AllCovered(s'.server, multiset{}, t)
    {
      if t in s.devices[d].fetched {
        SnapshotStaysCovered(s, e, t);
      } else {
        ServerIsCovered(s.server, multiset{});
      }
    }
  }

  lemma {:induction false} StepKeepsRecorded(s: System, e: Event)
    requires Inv(s) && Enabled(s, e)
    ensures RecordedCovered(Step(s, e))
  {
    hide Covered, AllCovered;
    var s' := Step(s, e);
    forall w | w in s'.recorded
      ensures Covered(s'.server, Unarrived(s'), w.key, w.entry.score)
    {
      if w in s.recorded {
        CoveredStays(s, e, w.key, w.entry.score);
      } else {
        RecordIsCovered(s.server, Unarrived(s), s.devices[e.d], w);
        UnarrivedAfterRecord(s, e.d, w);
      }
    }
  }

  lemma {:induction false} StepKeepsOrigin(s: System, e: Event)
    requires Inv(s) && Enabled(s, e)
    ensures ServerIsArrived(Step(s, e)) && OnlyRecorded(Step(s, e))
  {
    hide RecordedCovered, DevicesCovered;
    if e.Deliver? || e.Redeliver? {
      var w := e.w;
      assert w in s.recorded && Write(w.key, w.entry) == w;
      if w.key in s.server && w.entry.score <= s.server[w.key].score {
        assert Merge(Row(s.server, w.key), w.entry) == s.server[w.key];
      } else {
        assert Merge(Row(s.server, w.key), w.entry) == w.entry;
      }
    }
  }

  lemma {:induction false} StepKeeps(s: System, e: Event)
    requires Inv(s) && Enabled(s, e)
    ensures Inv(Step(s, e))
  {
    hide Step, Enabled, RecordedCovered, ServerIsArrived, OnlyRecorded, DevicesCovered;
    StepKeepsDevices(s, e);
    StepKeepsRecorded(s, e);
    StepKeepsOrigin(s, e);
  }

  lemma {:induction false} RunKeeps(s: System, events: seq<Event>)
    requires Inv(s) && EnabledRun(s, events)
    ensures Inv(Final(s, events))
    decreases |events|
  {
    hide Inv, Step, Enabled;
    if events != [] {
      StepKeeps(s, events[0]);
      RunKeeps(Step(s, events[0]), events[1..]);
    }
  }

  ghost predicate Start(s: System) {
    && s.server == map[] && s.pending == multiset{} && s.arrived == {} && s.failed == multiset{} && s.recorded == {}
    && forall d :: d in s.devices ==> s.devices[d].cache == map[] && s.devices[d].fetched == multiset{}
  }

  lemma {:induction false} RunFromStart(s: System, events: seq<Event>)
    requires Start(s) && EnabledRun(s, events)
    ensures Inv(Final(s, events))
  {
    hide EnabledRun, Final;
    assert Inv(s);
    RunKeeps(s, events);
  }

  // ---------------------------------------------------------------- convergence

  /** The server holds a row for the key exactly if a score was recorded, and then the largest. */
  ghost predicate HoldsLargest(server: Table, writes: set<Write>, k: Key) {
    && (k in server <==> exists e :: Write(k, e) in writes)
    && (k in server ==>
          Write(k, server[k]) in writes
          && forall w :: w in writes && w.key == k ==> w.entry.score <= server[k].score)
  }

  /** Every failed write of the key was matched by one of at least its score that arrived. */
  ghost predicate FailuresMatched(s: System, k: Key) {
    forall w :: w in s.failed && w.key == k ==>
      exists a :: a in s.arrived && a.key == k && a.entry.score >= w.entry.score
  }

  /** In every state of every run, failures included, the server holds the largest of the writes
      that arrived. */
  lemma {:induction false} HoldsLargestArrived(s: System, events: seq<Event>, k: Key)
    requires Start(s) && EnabledRun(s, events)
    ensures HoldsLargest(Final(s, events).server, Final(s, events).arrived, k)
  {
    hide Step, Enabled, EnabledRun, Final, RecordedCovered, DevicesCovered;
    RunFromStart(s, events);
    var f := Final(s, events);
    if e :| Write(k, e) in f.arrived {
      assert Write(k, e).key in f.server;
    }
  }

  /** Whatever the interleaving of recordings, deliveries, redeliveries, failures, refreshes from
      snapshots that may be stale, cache wipes and sign-in gates on any number of devices: once
      nothing is pending, the server holds the largest score ever recorded for a verse exactly if
      every failed write of it was matched by one that arrived. */
  lemma {:induction false} ConvergesIff(s: System, events: seq<Event>, k: Key)
    requires Start(s) && EnabledRun(s, events) && Final(s, events).pending == multiset{}
    ensures HoldsLargest(Final(s, events).server, Final(s, events).recorded, k)
      <==> FailuresMatched(Final(s, events), k)
  {
    hide Inv, EnabledRun, Final, HoldsLargest, FailuresMatched;
    RunFromStart(s, events);
    if FailuresMatched(Final(s, events), k) {
      MatchedHolds(Final(s, events), k);
    } else {
      UnmatchedLoses(Final(s, events), k);
    }
  }

  lemma {:induction false} MatchedHolds(f: System, k: Key)
    requires Inv(f) && f.pending == multiset{} && FailuresMatched(f, k)
    ensures HoldsLargest(f.server, f.recorded, k)
  {
    hide DevicesCovered;
    forall w | w in f.recorded && w.key == k
      ensures k in f.server && w.entry.score <= f.server[k].score
    {
      assert Covered(f.server, Unarrived(f), k, w.entry.score);
      if x :| x in Unarrived(f) && x.key == k && x.entry.score >= w.entry.score {
        assert x in f.failed;
      }
    }
    if e :| Write(k, e) in f.recorded {
      assert Write(k, e).key == k;
    }
  }

  lemma {:induction false} UnmatchedLoses(f: System, k: Key)
    requires Inv(f) && !FailuresMatched(f, k)
    ensures !HoldsLargest(f.server, f.recorded, k)
  {
    hide DevicesCovered, RecordedCovered;
    var w :| w in f.failed && w.key == k && !exists a :: a in f.arrived && a.key == k && a.entry.score >= w.entry.score;
    assert Write(k, w.entry) == w && w in f.recorded;
    assert k in f.server ==> Write(k, f.server[k]) in f.arrived;
  }

  ghost predicate NoFailure(events: seq<Event>, k: Key) {
    forall i :: 0 <= i < |events| ==> !(events[i].Fail? && events[i].w.key == k)
  }

  lemma {:induction false} NothingFailed(s: System, events: seq<Event>, k: Key)
    requires EnabledRun(s, events) && NoFailure(events, k) && forall w :: w in s.failed ==> w.key != k
    ensures forall w :: w in Final(s, events).failed ==> w.key != k
    decreases |events|
  {
    if events != [] {
      assert !(events[0].Fail? && events[0].w.key == k);
      assert forall i :: 0 <= i < |events[1..]| ==> events[1..][i] == events[i + 1];
      NothingFailed(Step(s, events[0]), events[1..], k);
    }
  }

  /** While no write of the verse fails, the server ends up with the largest score ever recorded. */
  lemma {:induction false} Converges(s: System, events: seq<Event>, k: Key)
    requires Start(s) && EnabledRun(s, events) && Final(s, events).pending == multiset{} && NoFailure(events, k)
    ensures HoldsLargest(Final(s, events).server, Final(s, events).recorded, k)
  {
    hide Step, Enabled, EnabledRun, Final, HoldsLargest;
    NothingFailed(s, events, k);
    ConvergesIff(s, events, k);
  }

  // ---------------------------------------------------------------- failed writes

  /** One call: a score recorded through an open gate is on the server or on its way afterwards exactly if
      the call sent it or the server had, or was about to have, as much already. */
  lemma {:induction false} RecordCoversIff(s: System, d: DeviceId, w: Write)
    requires d in s.devices && Open(s.devices[d])
    ensures var s' := Step(s, Record(d, w));
      Covered(s'.server, s'.pending, w.key, w.entry.score) <==>
        (Sends(s.devices[d], w) || Covered(s.server, s.pending, w.key, w.entry.score))
  {
    RecordIsCovered(s.server, s.pending, s.devices[d], w);
  }

  /** The device's cache shows nothing for the verse that the server has not, or is about to have. */
  ghost predicate CacheBacked(s: System, d: DeviceId, k: Key) {
    d in s.devices && (k in s.devices[d].cache ==> Covered(s.server, s.pending, k, s.devices[d].cache[k].score))
  }

  lemma {:induction false} PendingCoveredStays(s: System, e: Event, k: Key, score: int)
    requires Enabled(s, e) && Covered(s.server, s.pending, k, score) && !(e.Fail? && e.w.key == k)
    ensures Covered(Step(s, e).server, Step(s, e).pending, k, score)
  {
    if !(k in s.server && s.server[k].score >= score) {
      var w :| w in s.pending && w.key == k && w.entry.score >= score;
      if e != Deliver(w) {
        assert w in Step(s, e).pending;
      }
    }
  }

  /** Only a failed write of the verse can take that away again. */
  lemma {:induction false} BackedStays(s: System, e: Event, d: DeviceId, k: Key)
    requires Inv(s) && Enabled(s, e) && CacheBacked(s, d, k) && !(e.Fail? && e.w.key == k)
    ensures CacheBacked(Step(s, e), d, k)
  {
    hide RecordedCovered, ServerIsArrived, OnlyRecorded, Upsert, Covered;
    var s' := Step(s, e);
    if k in s.devices[d].cache {
      PendingCoveredStays(s, e, k, s.devices[d].cache[k].score);
    }
    if e.Record? && e.d == d && e.w.key == k {
      RecordCoversOwn(s, d, e.w);
    } else if e.FetchStored? && e.d == d {
      StoredIsBacked(s, d, e.t, k);
    }
  }

  lemma {:induction false} RecordCoversOwn(s: System, d: DeviceId, w: Write)
    requires CacheBacked(s, d, w.key)
    ensures CacheBacked(Step(s, Record(d, w)), d, w.key)
  {
    if Open(s.devices[d]) && Sends(s.devices[d], w) {
      assert w in Step(s, Record(d, w)).pending;
      if CacheRecord(s.devices[d].cache, w) == s.devices[d].cache && w.key in s.devices[d].cache {
        PendingCoveredStays(s, Record(d, w), w.key, s.devices[d].cache[w.key].score);
      }
    }
  }

  /** A refresh replaces the cache by what the server had. */
  lemma {:induction false} StoredIsBacked(s: System, d: DeviceId, t: Table, k: Key)
    requires Inv(s) && Enabled(s, FetchStored(d, t))
    ensures CacheBacked(Step(s, FetchStored(d, t)), d, k)
  {
    hide RecordedCovered, ServerIsArrived, OnlyRecorded;
    if k in t {
      assert AllCovered(s.server, multiset{}, t);
      assert Covered(s.server, multiset{}, k, t[k].score);
    }
  }

  lemma {:induction false} BackedOverRun(s: System, events: seq<Event>, d: DeviceId, k: Key)
    requires Inv(s) && EnabledRun(s, events) && CacheBacked(s, d, k) && NoFailure(events, k)
    ensures CacheBacked(Final(s, events), d, k)
    decreases |events|
  {
    hide Inv, Step, Enabled, CacheBacked;
    if events != [] {
      assert !(events[0].Fail? && events[0].w.key == k);
      assert forall i :: 0 <= i < |events[1..]| ==> events[1..][i] == events[i + 1];
      StepKeeps(s, events[0]);
      BackedStays(s, events[0], d, k);
      BackedOverRun(Step(s, events[0]), events[1..], d, k);
    }
  }

  /** Whatever failed before: from the next stored refresh on, and until another write of the verse
      fails, suppression is harmless again, and every score the device records for it is on the
      server or on its way. */
  lemma {:induction false} RefreshRepairs(s: System, d: DeviceId, t: Table, later: seq<Event>, w: Write)
    requires Inv(s) && Enabled(s, FetchStored(d, t))
    requires EnabledRun(Step(s, FetchStored(d, t)), later) && NoFailure(later, w.key)
    ensures var f := Final(Step(s, FetchStored(d, t)), later);
      && d in f.devices
      && (Open(f.devices[d]) ==>
            var s' := Step(f, Record(d, w)); Covered(s'.server, s'.pending, w.key, w.entry.score))
  {
    hide Inv, Step, Enabled, EnabledRun, Final, Covered;
    var s1 := Step(s, FetchStored(d, t));
    StepKeeps(s, FetchStored(d, t));
    StoredIsBacked(s, d, t, w.key);
    BackedOverRun(s1, later, d, w.key);
    SuppressedIsBacked(Final(s1, later), d, w);
  }

  lemma {:induction false} SuppressedIsBacked(s: System, d: DeviceId, w: Write)
    requires CacheBacked(s, d, w.key)
    ensures Open(s.devices[d]) ==>
      var s' := Step(s, Record(d, w)); Covered(s'.server, s'.pending, w.key, w.entry.score)
  {
    if Open(s.devices[d]) {
      RecordCoversIff(s, d, w);
    }
  }

  /** A run in which a write fails and nothing matches it: the browser's write of 90 fails, the 85
      recorded next is suppressed, and with nothing pending any more the server has neither. */
  lemma {:induction false} FailedWriteIsNotRepaired(k: Key)
    ensures var s0 := System(map[], map[0 := Device(Browser, true, map[], multiset{})], multiset{}, {}, multiset{}, {});
      var first, second := Write(k, Entry(90, 1)), Write(k, Entry(85, 2));
      var run := [Record(0, first), Fail(first), Record(0, second)];
      && Start(s0) && EnabledRun(s0, run)
      && Final(s0, run).pending == multiset{} && k !in Final(s0, run).server && second in Final(s0, run).recorded
  {
    var dev := Device(Browser, true, map[], multiset{});
    var s0 := System(map[], map[0 := dev], multiset{}, {}, multiset{}, {});
    var first, second := Write(k, Entry(90, 1)), Write(k, Entry(85, 2));
    var cached := dev.(cache := map[k := first.entry]);
    var s2 := System(map[], map[0 := cached], multiset{}, {}, multiset{first}, {first});
    assert Step(s0, Record(0, first)) == System(map[], map[0 := cached], multiset{first}, {}, multiset{}, {first});
    assert Step(Step(s0, Record(0, first)), Fail(first)) == s2;
    assert Step(s2, Record(0, second)) == s2.(recorded := {first, second});
    RunOfThree(s0, Record(0, first), Fail(first), Record(0, second));
  }

  lemma {:induction false} RunOfThree(s: System, a: Event, b: Event, c: Event)
    requires Enabled(s, a) && Enabled(Step(s, a), b) && Enabled(Step(Step(s, a), b), c)
    ensures EnabledRun(s, [a, b, c]) && Final(s, [a, b, c]) == Step(Step(Step(s, a), b), c)
  {
    hide Step, Enabled;
    var s1, s2 := Step(s, a), Step(Step(s, a), b);
    assert [a, b, c][1..] == [b, c] && [b, c][1..] == [c] && [c][1..] == [];
    assert EnabledRun(s2, [c]) && Final(s2, [c]) == Step(s2, c);
    assert EnabledRun(s1, [b, c]) && Final(s1, [b, c]) == Final(s2, [c]);
  }
}
