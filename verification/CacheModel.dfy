/** The cache of cache/cache.go on values: what each operation does to the map of entries, the counters
    and the sliding window. Cache.dfy proves the imperative operations against these functions, and
    Server.dfy runs them as steps of the server. */
module CacheModel {
  import opened Clock
  import opened Dns
  import opened Entries
  import opened Options
  import opened Sets
  import opened Window
  import UsageDays

  const MAX_INT64: int := 0x7FFF_FFFF_FFFF_FFFF
  const SAMPLE_SIZE: int := 8
  const STALE_MAX_AGE: int := 24 * HOUR

  datatype Counters = Counters(hits: nat, lateHits: nat, misses: nat, staleServes: nat, errors: nat, totalQueries: nat)

  datatype State = State(entries: map<string, Entry>, counters: Counters, window: seq<Bucket>)

  /** An instant from 1970 on whose day number fits the usage word. */
  predicate FitsWord(now: int, zone: int)
  {
    now >= 0 && LocalDay(now, zone) < UsageDays.DAY_LIMIT
  }

  function Minute(now: int): int
  {
    Unix(now) / 60
  }

  // ---------------------------------------------------------------------------
  // Lookups
  // ---------------------------------------------------------------------------

  predicate Hits(cfg: Config, s: State, key: string, now: int)
  {
    key in s.entries && cfg.Servable(s.entries[key], now)
  }

  function AfterMiss(c: Counters): Counters
  {
    c.(misses := c.misses + 1)
  }

  function AfterHit(c: Counters, late: bool): Counters
  {
    c.(hits := c.hits + 1, lateHits := c.lateHits + if late then 1 else 0)
  }

  /** IncrQueries */
  function Queried(s: State): State
  {
    s.(counters := s.counters.(totalQueries := s.counters.totalQueries + 1))
  }

  /** IncrErrors */
  function Erred(s: State): State
  {
    s.(counters := s.counters.(errors := s.counters.errors + 1))
  }

  /** The entry after a client asked for it: recency and usage days in any case, the hit count when the
      answer is served. */
  function Asked(cfg: Config, zone: int, e: Entry, now: int): Entry
  {
    if cfg.Servable(e, now) then e.Touched(now, zone).(hitCount := e.hitCount + 1) else e.Touched(now, zone)
  }

  /** Cache.Get */
  function Get(cfg: Config, zone: int, s: State, key: string, now: int): State
    requires |s.window| == WINDOW_MINUTES && now >= 0
  {
    var hit := Hits(cfg, s, key, now);
    State(if key in s.entries then s.entries[key := Asked(cfg, zone, s.entries[key], now)] else s.entries,
          if hit then AfterHit(s.counters, s.entries[key].ExpiredAt(now)) else AfterMiss(s.counters),
          Record(s.window, Minute(now), hit))
  }

  predicate StaleHits(cfg: Config, s: State, key: string, now: int)
  {
    cfg.staleServing && key in s.entries && now - s.entries[key].expiresAt <= STALE_MAX_AGE
  }

  /** Cache.GetStale, after the upstream failed. */
  function GetStale(cfg: Config, s: State, key: string, now: int): State
  {
    if !StaleHits(cfg, s, key, now) then s
    else
      var e := s.entries[key];
      var e := e.(hitCount := e.hitCount + 1, lastHitAt := now);
      s.(entries := s.entries[key := e], counters := s.counters.(staleServes := s.counters.staleServes + 1))
  }

  // ---------------------------------------------------------------------------
  // Insertion and eviction
  // ---------------------------------------------------------------------------

  /** More than 24 hours past its expiry. */
  predicate Dead(e: Entry, now: int)
  {
    now > e.expiresAt && now > e.expiresAt + 24 * HOUR
  }

  predicate Oldest(entries: map<string, Entry>, sample: set<string>, key: string)
  {
    && key in sample && sample <= entries.Keys
    && forall k :: k in sample ==> entries[key].lastHitAt <= entries[k].lastHitAt
  }

  predicate AllAtMaximum(entries: map<string, Entry>, sample: set<string>)
    requires sample <= entries.Keys
  {
    forall k :: k in sample ==> entries[k].lastHitAt >= MAX_INT64
  }

  /** The keys evictOne has looked at before it stops, in whatever order the map yields them. */
  predicate Sampled(entries: map<string, Entry>, sample: set<string>, now: int)
  {
    && sample <= entries.Keys
    && |sample| <= SAMPLE_SIZE
    && forall k :: k in sample ==> !Dead(entries[k], now)
  }

  ghost predicate FullSample(entries: map<string, Entry>, sample: set<string>, now: int)
  {
    Sampled(entries, sample, now) && |sample| == Min(SAMPLE_SIZE, |entries|)
  }

  /** What evictOne may do: remove a dead entry found on the way, else the least recently used of the
      sample; nothing when every recency in the sample is the largest int64. */
  ghost predicate Evicts(entries: map<string, Entry>, now: int, victim: Option<string>)
  {
    match victim
    case Some(k) =>
      && k in entries
      && (Dead(entries[k], now)
          || (entries[k].lastHitAt < MAX_INT64
              && exists sample :: FullSample(entries, sample, now) && Oldest(entries, sample, k)))
    case None =>
      exists sample :: FullSample(entries, sample, now) && AllAtMaximum(entries, sample)
  }

  /** What Set may evict: nothing when it replaces an entry or the cache has room. */
  ghost predicate MayEvict(cfg: Config, entries: map<string, Entry>, key: string, now: int, victim: Option<string>)
  {
    if key in entries || |entries| < cfg.maxEntries then victim == None else Evicts(entries, now, victim)
  }

  function Without(entries: map<string, Entry>, victim: Option<string>): map<string, Entry>
  {
    match victim
    case Some(k) => entries - {k}
    case None => entries
  }

  /** Cache.Set of an entry built at `now`. */
  function Insert(entries: map<string, Entry>, e: Entry, victim: Option<string>): map<string, Entry>
  {
    if e.Key() in entries then entries[e.Key() := e.Inheriting(entries[e.Key()])]
    else Without(entries, victim)[e.Key() := e]
  }

  function Set(cfg: Config, zone: int, s: State, q: Question, resp: Msg, given: nat, now: int,
               victim: Option<string>): State
  {
    s.(entries := Insert(s.entries, NewEntry(cfg, zone, q, resp, given, now), victim))
  }

  // ---------------------------------------------------------------------------
  // Eviction against the least recently used entry
  // ---------------------------------------------------------------------------

  /** On a non-empty cache exactly one entry goes: a dead one or the least recently used of a sample of
      min(8, n). */
  lemma EvictsOne(entries: map<string, Entry>, now: int, victim: Option<string>)
    requires Evicts(entries, now, victim) && |entries| > 0
    requires forall k :: k in entries ==> entries[k].lastHitAt < MAX_INT64
    ensures victim.Some? && victim.value in entries && |Without(entries, victim)| == |entries| - 1
  {
    if victim.Some? {
      assert (entries - {victim.value}).Keys == entries.Keys - {victim.value};
    }
  }

  lemma {:induction false} LeastExists(entries: map<string, Entry>, sample: set<string>) returns (key: string)
    requires sample <= entries.Keys && sample != {}
    ensures Oldest(entries, sample, key)
    decreases |sample|
  {
    var k :| k in sample;
    if sample == {k} {
      key := k;
    } else {
      var rest := LeastExists(entries, sample - {k});
      key := if entries[k].lastHitAt < entries[rest].lastHitAt then k else rest;
    }
  }

  /** The live entries that are not the least recently used of all. */
  function Newer(entries: map<string, Entry>, now: int): set<string>
  {
    set k | k in entries && !Dead(entries[k], now) && !Oldest(entries, entries.Keys, k)
  }

  /** Whatever evictOne may remove is the least recently used entry of the whole cache. */
  ghost predicate IsLru(entries: map<string, Entry>, now: int)
  {
    forall v :: Evicts(entries, now, Some(v)) ==> Oldest(entries, entries.Keys, v)
  }

  /** Eviction is LRU for every iteration order exactly when no dead entry was asked for later than another
      entry, and the live entries that are not the least recent are too few to fill a sample, or all at the
      largest int64, which evictOne never removes. */
  lemma EvictionIsLruIff(entries: map<string, Entry>, now: int)
    ensures IsLru(entries, now)
            <==> (forall k :: k in entries && Dead(entries[k], now) ==> Oldest(entries, entries.Keys, k))
                 && (|Newer(entries, now)| < SAMPLE_SIZE || AllAtMaximum(entries, Newer(entries, now)))
  {
    var newer := Newer(entries, now);
    if k :| k in entries && Dead(entries[k], now) && !Oldest(entries, entries.Keys, k) {
      assert Evicts(entries, now, Some(k));
    } else if |newer| < SAMPLE_SIZE || AllAtMaximum(entries, newer) {
      forall v | Evicts(entries, now, Some(v))
        ensures Oldest(entries, entries.Keys, v)
      {
        if !Dead(entries[v], now) && !Oldest(entries, entries.Keys, v) {
          NewerNeverEvicted(entries, now, v);
        }
      }
    } else {
      var v := NewerMayBeEvicted(entries, now);
      assert Evicts(entries, now, Some(v));
    }
  }

  lemma NewerNeverEvicted(entries: map<string, Entry>, now: int, v: string)
    requires v in Newer(entries, now)
    requires |Newer(entries, now)| < SAMPLE_SIZE || AllAtMaximum(entries, Newer(entries, now))
    ensures !Evicts(entries, now, Some(v))
  {
    hide Dead;
    if Evicts(entries, now, Some(v)) {
      var sample :| FullSample(entries, sample, now) && Oldest(entries, sample, v);
      forall k | k in sample
        ensures k in Newer(entries, now)
      {
        var least :| least in entries && entries[least].lastHitAt < entries[v].lastHitAt;
        assert entries[least].lastHitAt < entries[k].lastHitAt;
      }
      SubsetSize(sample, Newer(entries, now));
      assert |entries.Keys| == |entries|;
      SubsetOfSameSize(sample, entries.Keys);
    }
  }

  /** Eight entries that are all newer make a sample of which the oldest goes. */
  lemma NewerMayBeEvicted(entries: map<string, Entry>, now: int) returns (v: string)
    requires |Newer(entries, now)| >= SAMPLE_SIZE && !AllAtMaximum(entries, Newer(entries, now))
    ensures Evicts(entries, now, Some(v)) && !Oldest(entries, entries.Keys, v)
  {
    hide Dead;
    var newer := Newer(entries, now);
    var below :| below in newer && entries[below].lastHitAt < MAX_INT64;
    var rest := Pick(newer - {below}, SAMPLE_SIZE - 1);
    var sample := rest + {below};
    v := LeastExists(entries, sample);
    SubsetSize(newer, entries.Keys);
    assert |entries.Keys| == |entries|;
    assert FullSample(entries, sample, now);
  }

  /** With at most 8 entries and none of them dead the eviction is exact LRU. */
  lemma SmallCacheIsLru(entries: map<string, Entry>, now: int, victim: string)
    requires Evicts(entries, now, Some(victim)) && |entries| <= SAMPLE_SIZE
    requires forall k :: k in entries ==> !Dead(entries[k], now)
    ensures Oldest(entries, entries.Keys, victim)
  {
    hide Dead, Evicts;
    assert victim in entries by { VictimIsEntry(entries, now, victim); }
    var least := LeastExists(entries, entries.Keys);
    assert |entries.Keys| == |entries|;
    SubsetSize(Newer(entries, now), entries.Keys - {least});
    EvictionIsLruIff(entries, now);
  }

  lemma VictimIsEntry(entries: map<string, Entry>, now: int, victim: string)
    requires Evicts(entries, now, Some(victim))
    ensures victim in entries
  {
  }

  // ---------------------------------------------------------------------------
  // Eviction in numbers
  // ---------------------------------------------------------------------------

  predicate PastADay(e: Entry, now: int)
  {
    now - e.expiresAt > 86_400_000_000_000
  }

  /** A sample of min(8, n) entries, none of them more than 24 hours past its expiry. */
  ghost predicate LiveSample(entries: map<string, Entry>, sample: set<string>, now: int)
  {
    && sample <= entries.Keys && |sample| == (if |entries| < 8 then |entries| else 8)
    && forall k :: k in sample ==> !PastADay(entries[k], now)
  }

  ghost predicate LeastRecentOf(entries: map<string, Entry>, sample: set<string>, v: string)
    requires sample <= entries.Keys
  {
    v in sample && forall k :: k in sample ==> entries[v].lastHitAt <= entries[k].lastHitAt
  }

  /** An entry may be evicted exactly when it is more than 24 hours past its expiry, or is the least recently used of
      such a sample. */
  lemma EvictsInHours(entries: map<string, Entry>, now: int, v: string)
    ensures Evicts(entries, now, Some(v))
            <==> v in entries
                 && (PastADay(entries[v], now)
                     || (entries[v].lastHitAt < 9_223_372_036_854_775_807
                         && exists sample :: LiveSample(entries, sample, now) && LeastRecentOf(entries, sample, v)))
  {
    if v in entries {
      forall sample
        ensures FullSample(entries, sample, now) <==> LiveSample(entries, sample, now)
      {
      }
      forall sample | FullSample(entries, sample, now)
        ensures Oldest(entries, sample, v) <==> LeastRecentOf(entries, sample, v)
      {
      }
    }
  }

  /** Nothing is evicted for a key that is cached, nor while there is room; else one entry that may be, if any may. */
  lemma EvictsOnlyWhenFull(cfg: Config, entries: map<string, Entry>, key: string, now: int, victim: Option<string>)
    requires MayEvict(cfg, entries, key, now, victim)
    ensures victim.Some? ==> key !in entries && |entries| >= cfg.maxEntries && victim.value in entries
    ensures (forall k :: k in entries ==> entries[k].lastHitAt < 9_223_372_036_854_775_807) ==>
              (victim.Some? <==> key !in entries && |entries| >= cfg.maxEntries && entries != map[])
  {
    if victim.None? && key !in entries && |entries| >= cfg.maxEntries && entries != map[] {
      var sample :| FullSample(entries, sample, now) && AllAtMaximum(entries, sample);
      assert |entries| > 0 && sample != {};
      var k :| k in sample;
      assert entries[k].lastHitAt >= MAX_INT64;
    }
  }
}
