/** What every reachable cache satisfies: keys, expiry, clamped TTLs, history, and size. */
module CacheInvariant {
  import opened CacheModel
  import opened Clock
  import opened Dns
  import opened Entries
  import opened Options
  import opened RefreshModel
  import opened Server
  import opened Sets
  import Keys
  import UsageDays

  /** An entry as the operations leave it, filed under its own key. */
  predicate EntryOk(env: Env, key: string, e: Entry, now: int)
  {
    && e.Key() == key && Keys.CanonicalName(e.name) == e.name
    && e.expiresAt == e.storedAt + e.cachedTtl
    && 0 <= e.storedAt <= now && e.lastHitAt <= now
    && HistoryInOrder(e, env.zone)
  }

  /** The TTL is within the configured bounds, unless the answer is still the one loaded at the start. */
  predicate TtlOk(env: Env, loaded: map<string, Entry>, key: string, e: Entry)
  {
    || env.cfg.ttlMin <= e.cachedTtl <= env.cfg.ttlMax
    || (key in loaded && e.storedAt == loaded[key].storedAt && e.cachedTtl == loaded[key].cachedTtl)
  }

  ghost predicate EntriesOk(env: Env, loaded: map<string, Entry>, entries: map<string, Entry>, now: int)
  {
    forall k :: k in entries ==> EntryOk(env, k, entries[k], now) && TtlOk(env, loaded, k, entries[k])
  }

  function Capacity(env: Env, loaded: map<string, Entry>): int
  {
    Max(Max(env.cfg.maxEntries, |loaded|), 1)
  }

  ghost predicate Consistent(env: Env, loaded: map<string, Entry>, s: Server)
  {
    Sane(env, s) && EntriesOk(env, loaded, s.cache.entries, s.now)
  }

  ghost predicate Inv(env: Env, loaded: map<string, Entry>, s: Server)
  {
    Consistent(env, loaded, s) && |s.cache.entries| <= Capacity(env, loaded)
  }

  // ---------------------------------------------------------------------------
  // Entry by entry
  // ---------------------------------------------------------------------------

  lemma LaterIsOk(env: Env, key: string, e: Entry, now: int, later: int)
    requires EntryOk(env, key, e, now) && now <= later
    ensures EntryOk(env, key, e, later)
  {
  }

  lemma TouchedHistory(e: Entry, zone: int, now: int)
    requires HistoryInOrder(e, zone) && e.lastHitAt <= now
    requires Unix(now) + zone >= 0 && LocalDay(now, zone) < UsageDays.DAY_LIMIT
    ensures HistoryInOrder(e.Touched(now, zone), zone)
  {
    LocalDayMonotone(e.lastHitAt, now, zone);
    UsageDays.MarkSettles(e.usedDays, LocalDay(now, zone));
  }

  lemma AskedIsOk(env: Env, loaded: map<string, Entry>, key: string, e: Entry, now: int)
    requires GoodClock(env, now) && EntryOk(env, key, e, now) && TtlOk(env, loaded, key, e)
    ensures EntryOk(env, key, Asked(env.cfg, env.zone, e, now), now)
    ensures TtlOk(env, loaded, key, Asked(env.cfg, env.zone, e, now))
  {
    TouchedHistory(e, env.zone, now);
    hide Keys.Key, UsageDays.Mark;
  }

  lemma NewEntryIsOk(env: Env, loaded: map<string, Entry>, q: Question, resp: Msg, given: nat, now: int)
    requires env.Valid() && GoodClock(env, now)
    ensures var e := NewEntry(env.cfg, env.zone, q, resp, given, now);
            EntryOk(env, QKey(q), e, now) && TtlOk(env, loaded, QKey(q), e)
  {
    NewEntryKey(env.cfg, env.zone, q, resp, given, now);
    Keys.CanonicalIdempotent(q.name);
    ClampTtlInRange(env.cfg, OriginalTtl(resp, given) * SECOND);
    UsageDays.PackIsFirstMark(LocalDay(now, env.zone));
    hide Keys.Key, Keys.CanonicalName, UsageDays.Pack, ClampTtl, OriginalTtl;
  }

  lemma InheritingIsOk(env: Env, loaded: map<string, Entry>, key: string, e: Entry, previous: Entry, now: int)
    requires EntryOk(env, key, e, now) && TtlOk(env, loaded, key, e) && EntryOk(env, key, previous, now)
    ensures EntryOk(env, key, e.Inheriting(previous), now) && TtlOk(env, loaded, key, e.Inheriting(previous))
  {
    hide Keys.Key;
  }

  // ---------------------------------------------------------------------------
  // Operation by operation
  // ---------------------------------------------------------------------------

  lemma GetKeeps(env: Env, loaded: map<string, Entry>, s: State, key: string, now: int)
    requires |s.window| == Window.WINDOW_MINUTES && GoodClock(env, now) && EntriesOk(env, loaded, s.entries, now)
    ensures EntriesOk(env, loaded, Get(env.cfg, env.zone, s, key, now).entries, now)
    ensures Get(env.cfg, env.zone, s, key, now).entries.Keys == s.entries.Keys
  {
    hide EntryOk, TtlOk, Asked, Window.Record;
    if key in s.entries {
      AskedIsOk(env, loaded, key, s.entries[key], now);
    }
  }

  lemma StaleKeeps(env: Env, loaded: map<string, Entry>, s: State, key: string, now: int)
    requires GoodClock(env, now) && EntriesOk(env, loaded, s.entries, now)
    ensures EntriesOk(env, loaded, GetStale(env.cfg, s, key, now).entries, now)
    ensures GetStale(env.cfg, s, key, now).entries.Keys == s.entries.Keys
  {
    hide EntryOk, TtlOk;
    if key in s.entries {
      ServedStaleIsOk(env, loaded, key, s.entries[key], now);
    }
  }

  lemma ServedStaleIsOk(env: Env, loaded: map<string, Entry>, key: string, e: Entry, now: int)
    requires GoodClock(env, now) && EntryOk(env, key, e, now) && TtlOk(env, loaded, key, e)
    ensures EntryOk(env, key, e.(hitCount := e.hitCount + 1, lastHitAt := now), now)
    ensures TtlOk(env, loaded, key, e.(hitCount := e.hitCount + 1, lastHitAt := now))
  {
    hide Keys.Key, UsageDays.LastDay;
    LocalDayMonotone(e.lastHitAt, now, env.zone);
  }

  lemma SetKeeps(env: Env, loaded: map<string, Entry>, s: State, q: Question, resp: Msg, given: nat, now: int,
                 victim: Option<string>)
    requires env.Valid() && GoodClock(env, now) && EntriesOk(env, loaded, s.entries, now)
    requires MayEvict(env.cfg, s.entries, QKey(q), now, victim)
    ensures EntriesOk(env, loaded, Set(env.cfg, env.zone, s, q, resp, given, now, victim).entries, now)
  {
    hide EntryOk, TtlOk, NewEntry, Keys.Key, MayEvict;
    var e := NewEntry(env.cfg, env.zone, q, resp, given, now);
    NewEntryKey(env.cfg, env.zone, q, resp, given, now);
    NewEntryIsOk(env, loaded, q, resp, given, now);
    if QKey(q) in s.entries {
      InheritingIsOk(env, loaded, QKey(q), e, s.entries[QKey(q)], now);
    }
  }

  /** The cache never outgrows its limit, the entries it was loaded with, or one entry. */
  lemma InsertWithinCapacity(cfg: Config, entries: map<string, Entry>, e: Entry, now: int, victim: Option<string>,
                             capacity: int)
    requires MayEvict(cfg, entries, e.Key(), now, victim)
    requires |entries| <= capacity && cfg.maxEntries <= capacity && 1 <= capacity
    requires forall k :: k in entries ==> entries[k].lastHitAt < MAX_INT64
    ensures |Insert(entries, e, victim)| <= capacity
  {
    hide Keys.Key, Evicts;
    if e.Key() in entries {
      SizeOfUpdate(entries, e.Key(), e.Inheriting(entries[e.Key()]));
    } else {
      SizeOfUpdate(Without(entries, victim), e.Key(), e);
      if |entries| >= cfg.maxEntries {
        if |entries| > 0 {
          EvictsOne(entries, now, victim);
        } else {
          assert entries == map[];
          assert Without(entries, victim) == map[];
        }
      }
    }
  }

  lemma SizeOfUpdate(entries: map<string, Entry>, key: string, e: Entry)
    ensures |entries[key := e]| == |entries| + if key in entries then 0 else 1
  {
    var after := entries[key := e];
    assert after.Keys == entries.Keys + {key};
    assert |after| == |after.Keys| && |entries| == |entries.Keys|;
  }

  lemma SetWithinCapacity(env: Env, loaded: map<string, Entry>, s: State, q: Question, resp: Msg, given: nat, now: int,
                          victim: Option<string>)
    requires GoodClock(env, now) && EntriesOk(env, loaded, s.entries, now)
    requires MayEvict(env.cfg, s.entries, QKey(q), now, victim) && |s.entries| <= Capacity(env, loaded)
    ensures |Set(env.cfg, env.zone, s, q, resp, given, now, victim).entries| <= Capacity(env, loaded)
  {
    hide NewEntry, Keys.Key, MayEvict, TtlOk;
    NewEntryKey(env.cfg, env.zone, q, resp, given, now);
    InsertWithinCapacity(env.cfg, s.entries, NewEntry(env.cfg, env.zone, q, resp, given, now), now, victim,
                         Capacity(env, loaded));
  }

  lemma StepKeepsConsistent(env: Env, loaded: map<string, Entry>, s: Server, ev: Event)
    requires Consistent(env, loaded, s) && Enabled(env, s, ev)
    ensures Consistent(env, loaded, Apply(env, s, ev))
  {
    hide Keys.Key, EntryOk, TtlOk, CacheModel.Get, CacheModel.GetStale, CacheModel.Set, MayEvict, Picks, TickCandidates;
    StepKeepsSane(env, s, ev);
    match ev
    case Advance(to) =>
      forall k | k in s.cache.entries
        ensures EntryOk(env, k, s.cache.entries[k], to)
      {
        LaterIsOk(env, k, s.cache.entries[k], s.now, to);
      }
    case Lookup(key) => GetKeeps(env, loaded, s.cache, key, s.now);
    case Stale(key) => StaleKeeps(env, loaded, s.cache, key, s.now);
    case Reply(q, resp, victim) => SetKeeps(env, loaded, s.cache, q, resp, AnswerTtl(resp), s.now, victim);
    case Refreshed(q, resp, victim) => SetKeeps(env, loaded, s.cache, q, resp, RefreshTtl(resp), s.now, victim);
    case _ =>
  }

  lemma StepKeepsInv(env: Env, loaded: map<string, Entry>, s: Server, ev: Event)
    requires Inv(env, loaded, s) && Enabled(env, s, ev)
    ensures Inv(env, loaded, Apply(env, s, ev))
  {
    hide Keys.Key, EntryOk, TtlOk, CacheModel.Get, CacheModel.GetStale, CacheModel.Set, MayEvict, Picks, TickCandidates;
    StepKeepsConsistent(env, loaded, s, ev);
    match ev
    case Lookup(key) => GetKeeps(env, loaded, s.cache, key, s.now);
    case Stale(key) => StaleKeeps(env, loaded, s.cache, key, s.now);
    case Reply(q, resp, victim) =>
      SetWithinCapacity(env, loaded, s.cache, q, resp, AnswerTtl(resp), s.now, victim);
    case Refreshed(q, resp, victim) =>
      SetWithinCapacity(env, loaded, s.cache, q, resp, RefreshTtl(resp), s.now, victim);
    case Tick(_) =>
      SubsetSize(Prune(env.cfg, s.cache.entries, s.now).Keys, s.cache.entries.Keys);
    case _ =>
  }

  /** Over all runs: every entry is filed under its own key with a consistent expiry, a clamped TTL and a
      history no later than its last request, and the cache stays within its capacity. */
  lemma {:induction false} RunKeepsInv(env: Env, loaded: map<string, Entry>, s: Server, run: seq<Event>)
    requires Inv(env, loaded, s) && Legal(env, s, run)
    ensures Inv(env, loaded, Exec(env, s, run))
    decreases |run|
  {
    if run != [] {
      StepKeepsInv(env, loaded, s, run[0]);
      RunKeepsInv(env, loaded, Apply(env, s, run[0]), run[1..]);
    }
  }
}
