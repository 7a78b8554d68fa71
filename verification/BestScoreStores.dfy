/** The two ends of a best score as they run: the server's row, merged in place, and the browser's
    cache with its throttle and its sign-in gate. */
module BestScoreStores {
  import opened Common
  import opened BestScores

  class ServerTable {
    var rows: Table

    constructor ()
      ensures rows == map[]
    {
      rows := map[];
    }

    /** One statement: insert, or keep the larger score with its time; the stored row is returned. */
    method UpsertBestScore(key: Key, entry: Entry) returns (stored: Entry)
      modifies this
      ensures rows == Upsert(old(rows), Write(key, entry))
      ensures key in rows && stored == rows[key]
    {
      if key !in rows {
        rows := rows[key := entry];
      } else {
        var row := rows[key];
        var score := if entry.score > row.score then entry.score else row.score;
        var achievedAt := if entry.score > row.score then entry.achievedAt else row.achievedAt;
        rows := rows[key := Entry(score, achievedAt)];
      }
      stored := rows[key];
    }
  }

  const REFRESH_INTERVAL_MS := 30_000

  class BrowserStorage {
    var signedIn: bool
    var best: Table
    var lastRefreshedAt: Option<int>

    constructor ()
      ensures !signedIn && best == map[] && lastRefreshedAt == None
    {
      signedIn, best, lastRefreshedAt := false, map[], None;
    }

    ghost function AsDevice(fetched: multiset<Table>): Device
      reads this
    {
      Device(Browser, signedIn, best, fetched)
    }

    /** Drops the score when signed out or no improvement; otherwise caches it, counts as a refresh,
        and hands back the write to send. */
    method RecordBestScore(key: Key, score: int, now: int) returns (put: Option<Write>)
      modifies this
      ensures signedIn == old(signedIn)
      ensures var w := Write(key, Entry(score, now));
        && best == (if signedIn then CacheRecord(old(best), w) else old(best))
        && put == (if signedIn && Sends(old(AsDevice(multiset{})), w) then Some(w) else None)
        && lastRefreshedAt == (if put.Some? then Some(now) else old(lastRefreshedAt))
    {
      if !signedIn {
        return None;
      }
      if key in best && best[key].score >= score {
        return None;
      }
      var entry := Entry(score, now);
      best := best[key := entry];
      lastRefreshedAt := Some(now);
      return Some(Write(key, entry));
    }

    /** Whether a read triggers a fetch; if so the throttle restarts before the answer is there. */
    method BeginRefresh(now: int) returns (fetch: bool)
      modifies this`lastRefreshedAt
      ensures var last := if old(lastRefreshedAt).Some? then old(lastRefreshedAt).value else 0;
        fetch <==> (signedIn && now - last >= REFRESH_INTERVAL_MS)
      ensures lastRefreshedAt == if fetch then Some(now) else old(lastRefreshedAt)
    {
      if !signedIn {
        return false;
      }
      var last := if lastRefreshedAt.Some? then lastRefreshedAt.value else 0;
      if now - last < REFRESH_INTERVAL_MS {
        return false;
      }
      lastRefreshedAt := Some(now);
      return true;
    }

    /** The fetched table replaces the cache, whenever it arrives. */
    method StoreRefresh(value: Table)
      modifies this`best
      ensures best == value
    {
      best := value;
    }

    method ClearLocalCache()
      modifies this
      ensures best == map[] && lastRefreshedAt == None && signedIn == old(signedIn)
    {
      best := map[];
      lastRefreshedAt := None;
    }
  }

  /** What the browser does to itself when it records, and what it sends, is what the system's step
      does for one of its devices. */
  method RecordOnDevice(storage: BrowserStorage, ghost s: System, ghost d: DeviceId, key: Key, score: int, now: int)
    returns (put: Option<Write>)
    requires d in s.devices && s.devices[d] == storage.AsDevice(s.devices[d].fetched)
    modifies storage
    ensures var s' := Step(s, Record(d, Write(key, Entry(score, now))));
      && s'.devices[d] == storage.AsDevice(s.devices[d].fetched)
      && s'.pending == (if put.Some? then s.pending + multiset{put.value} else s.pending)
      && s'.server == s.server
  {
    put := storage.RecordBestScore(key, score, now);
  }

  /** The same for a fetched table when it arrives. */
  method RefreshOnDevice(storage: BrowserStorage, ghost s: System, ghost d: DeviceId, value: Table)
    requires d in s.devices && s.devices[d] == storage.AsDevice(s.devices[d].fetched) && value in s.devices[d].fetched
    modifies storage
    ensures var s' := Step(s, FetchStored(d, value));
      s' == s.(devices := s.devices[d := storage.AsDevice(s.devices[d].fetched - multiset{value})])
  {
    storage.StoreRefresh(value);
  }

  /** And for the wipe at a change of session. */
  method ClearOnDevice(storage: BrowserStorage, ghost s: System, ghost d: DeviceId)
    requires d in s.devices && s.devices[d] == storage.AsDevice(s.devices[d].fetched)
    modifies storage
    ensures Step(s, ClearCache(d)) == s.(devices := s.devices[d := storage.AsDevice(s.devices[d].fetched)])
  {
    storage.ClearLocalCache();
  }
}
