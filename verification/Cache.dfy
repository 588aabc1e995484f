/** The cache of cache/cache.go as the source has it: entry objects shared by the map, snapshots and save
    batches, counters and window buckets updated in place. Every operation is proved against
    CacheModel. */
module Caches {
  import opened CacheModel
  import opened Clock
  import opened Dns
  import opened Entries
  import opened Options
  import opened Sets
  import opened Window
  import Bits
  import Keys
  import UsageDays
  import UsageDaysRace

  class CachedEntry {
    const name: string
    const qtype: nat
    const response: Msg
    const storedAt: int
    const originalTtl: nat
    const cachedTtl: int
    const expiresAt: int
    var hitCount: nat
    var lastHitAt: int
    var usedDays: bv64

    constructor (e: Entry)
      ensures Value() == e
    {
      name, qtype, response := e.name, e.qtype, e.response;
      storedAt, originalTtl, cachedTtl, expiresAt := e.storedAt, e.originalTtl, e.cachedTtl, e.expiresAt;
      hitCount, lastHitAt, usedDays := e.hitCount, e.lastHitAt, e.usedDays;
    }

    function Value(): Entry
      reads this
    {
      Entry(name, qtype, response, storedAt, originalTtl, cachedTtl, expiresAt, hitCount, lastHitAt, usedDays)
    }

    function Key(): string
    {
      Keys.Key(name, qtype)
    }

    /** The retry loop. `others[i]` are the days other goroutines mark between the i-th load and its
        compare-and-swap; the call takes effect as a whole after some of them. */
    method MarkUsed(today: int, others: seq<seq<int>>)
      requires today < UsageDays.DAY_LIMIT
      requires forall i, j :: 0 <= i < |others| && 0 <= j < |others[i]| ==> others[i][j] < UsageDays.DAY_LIMIT
      modifies this`usedDays
      ensures exists n :: 0 <= n <= |others|
                && usedDays == UsageDays.Mark(MarkedBy(old(usedDays), others[..n]), today)
      ensures others == [] ==> usedDays == UsageDays.Mark(old(usedDays), today)
    {
      var i := 0;
      while true
        invariant 0 <= i <= |others| && usedDays == MarkedBy(old(usedDays), others[..i])
        decreases |others| - i
      {
        var seen := usedDays;
        var next := NextWord(seen, today);
        if i < |others| {
          MarkedByGrows(usedDays, others[i]);
          assert others[..i + 1][..i] == others[..i];
          usedDays := UsageDays.MarkAll(usedDays, others[i]);
          i := i + 1;
        }
        if next == seen {
          UsageDaysRace.FinishTakesEffectNow(seen, usedDays, today);
          return;
        }
        if usedDays == seen {
          usedDays := next;
          return;
        }
      }
    }
  }

  /** The switch of MarkUsed. */
  method NextWord(seen: bv64, today: int) returns (next: bv64)
    ensures next == UsageDays.Mark(seen, today)
  {
    next := UsageDays.Pack(today);
    var shift := today - UsageDays.LastDay(seen);
    if shift >= Bits.MASK_DAYS {
    } else if shift <= 0 {
      next := seen | 1;
    } else {
      next := UsageDays.Join(today, Bits.OrOne(Bits.Shl(UsageDays.Mask(seen), shift)));
    }
  }

  function MarkedBy(w: bv64, others: seq<seq<int>>): bv64
  {
    if others == [] then w
    else UsageDays.MarkAll(MarkedBy(w, others[..|others| - 1]), others[|others| - 1])
  }

  lemma {:induction false} MarkedByGrows(w: bv64, days: seq<int>)
    requires forall j :: 0 <= j < |days| ==> days[j] < UsageDays.DAY_LIMIT
    ensures UsageDaysRace.Grew(w, UsageDays.MarkAll(w, days))
    decreases |days|
  {
    if days != [] {
      var next := UsageDays.Mark(w, days[0]);
      UsageDaysRace.WriteGrows(w, days[0]);
      MarkedByGrows(next, days[1..]);
      UsageDaysRace.GrewTransitive(w, next, UsageDays.MarkAll(w, days));
    }
  }

  class Cache {
    const cfg: Config
    const zone: int
    const window: array<Bucket>
    var entries: map<string, CachedEntry>
    var hits: nat
    var lateHits: nat
    var misses: nat
    var staleServes: nat
    var errors: nat
    var totalQueries: nat

    constructor (cfg: Config, zone: int)
      ensures Valid() && fresh(window)
      ensures this.cfg == cfg && this.zone == zone
      ensures View() == State(map[], Counters(0, 0, 0, 0, 0, 0), EmptyWindow())
    {
      this.cfg, this.zone := cfg, zone;
      window := new Bucket[WINDOW_MINUTES](_ => Bucket(0, 0, 0));
      entries := map[];
      hits, lateHits, misses, staleServes, errors, totalQueries := 0, 0, 0, 0, 0, 0;
    }

    ghost predicate Valid()
      reads `entries
    {
      window.Length == WINDOW_MINUTES && forall k :: k in entries ==> entries[k].Key() == k
    }

    ghost function View(): State
      reads this, window, entries.Values
    {
      State(Contents(), Counts(), window[..])
    }

    function Counts(): Counters
      reads `hits, `lateHits, `misses, `staleServes, `errors, `totalQueries
    {
      Counters(hits, lateHits, misses, staleServes, errors, totalQueries)
    }

    function Contents(): map<string, Entry>
      reads `entries, entries.Values
    {
      map k | k in entries :: entries[k].Value()
    }

    lemma OneEntryChanged(before: map<string, Entry>, key: string, e: Entry)
      requires key in entries && before.Keys == entries.Keys && entries[key].Value() == e
      requires forall k :: k in entries && k != key ==> before[k] == entries[k].Value()
      ensures Contents() == before[key := e]
    {
    }

    /** Get: the entry when it may be served. */
    method Get(key: string, now: int) returns (e: CachedEntry?)
      requires Valid() && FitsWord(now, zone)
      modifies this, window, entries.Values
      ensures Valid() && entries == old(entries)
      ensures View() == CacheModel.Get(cfg, zone, old(View()), key, now)
      ensures (e != null) == CacheModel.Hits(cfg, old(View()), key, now)
      ensures e != null ==> key in entries && e == entries[key]
      ensures e != null ==> e.Value() == Asked(cfg, zone, old(Contents())[key], now)
    {
      hide Keys.Key;
      ghost var before := Contents();
      if key !in entries {
        CountMiss(now);
        return null;
      }
      var found := entries[key];
      ghost var asked := Asked(cfg, zone, before[key], now);
      var served := Ask(found, now);
      OneEntryChanged(before, key, asked);
      return if served then found else null;
    }

    /** Get once the entry is found. */
    method Ask(found: CachedEntry, now: int) returns (served: bool)
      requires Valid() && FitsWord(now, zone)
      modifies `hits, `lateHits, `misses, window, found
      ensures served == cfg.Servable(old(found.Value()), now)
      ensures found.Value() == Asked(cfg, zone, old(found.Value()), now)
      ensures Counts() == if served then AfterHit(old(Counts()), old(found.Value()).ExpiredAt(now))
                          else AfterMiss(old(Counts()))
      ensures window[..] == Record(old(window[..]), Minute(now), served)
    {
      Touch(found, now);
      var expired := now > found.expiresAt;
      if expired && now - found.storedAt > cfg.maxAge {
        CountMiss(now);
        return false;
      }
      found.hitCount := found.hitCount + 1;
      CountHit(expired, now);
      return true;
    }

    method CountMiss(now: int)
      requires Valid() && now >= 0
      modifies this`misses, window
      ensures Counts() == AfterMiss(old(Counts()))
      ensures window[..] == Record(old(window[..]), Minute(now), false)
    {
      misses := misses + 1;
      RecordWindow(false, now);
    }

    method CountHit(late: bool, now: int)
      requires Valid() && now >= 0
      modifies this`hits, this`lateHits, window
      ensures Counts() == AfterHit(old(Counts()), late)
      ensures window[..] == Record(old(window[..]), Minute(now), true)
    {
      hits := hits + 1;
      if late {
        lateHits := lateHits + 1;
      }
      RecordWindow(true, now);
    }

    method IncrQueries()
      modifies `totalQueries
      ensures View() == Queried(old(View()))
    {
      totalQueries := totalQueries + 1;
    }

    method IncrErrors()
      modifies `errors
      ensures View() == Erred(old(View()))
    {
      errors := errors + 1;
    }

    /** The part of Get that runs whether or not the entry is served. */
    method Touch(e: CachedEntry, now: int)
      requires FitsWord(now, zone)
      modifies e
      ensures e.Value() == old(e.Value()).Touched(now, zone)
    {
      e.lastHitAt := now;
      e.MarkUsed(LocalDay(now, zone), []);
    }

    method GetStale(key: string, now: int) returns (e: CachedEntry?)
      requires Valid()
      modifies this, entries.Values
      ensures Valid() && entries == old(entries)
      ensures View() == CacheModel.GetStale(cfg, old(View()), key, now)
      ensures (e != null) == CacheModel.StaleHits(cfg, old(View()), key, now)
      ensures e != null ==> key in entries && e == entries[key]
    {
      hide Keys.Key;
      ghost var before := Contents();
      if !cfg.staleServing {
        return null;
      }
      if key !in entries || now - entries[key].expiresAt > STALE_MAX_AGE {
        return null;
      }
      e := entries[key];
      e.hitCount := e.hitCount + 1;
      e.lastHitAt := now;
      staleServes := staleServes + 1;
      OneEntryChanged(before, key, e.Value());
    }

    /** Set: the new object replaces the old one in the map; objects handed out before stay as they are. */
    method Set(q: Question, resp: Msg, given: nat, now: int) returns (victim: Option<string>)
      requires Valid()
      modifies `entries
      ensures Valid()
      ensures MayEvict(cfg, old(Contents()), Keys.Key(q.name, q.qtype), now, victim)
      ensures View() == CacheModel.Set(cfg, zone, old(View()), q, resp, given, now, victim)
    {
      hide NewEntry, Keys.Key, Insert, MayEvict;
      NewEntryKey(cfg, zone, q, resp, given, now);
      var e := Build(q, resp, given, now);
      victim := Put(e, now);
    }

    /** The part of Set under the lock. */
    method Put(e: CachedEntry, now: int) returns (victim: Option<string>)
      requires Valid() && e !in entries.Values
      modifies `entries, e
      ensures Valid()
      ensures MayEvict(cfg, old(Contents()), e.Key(), now, victim)
      ensures Contents() == Insert(old(Contents()), old(e.Value()), victim)
    {
      hide Keys.Key;
      if e.Key() in entries {
        Replace(e);
        victim := None;
      } else {
        ghost var before := Contents();
        assert before.Keys == entries.Keys && |before| == |before.Keys|;
        victim := MakeRoom(now);
        Store(e);
      }
    }

    method Replace(e: CachedEntry)
      requires Valid() && e !in entries.Values && e.Key() in entries
      modifies `entries, e
      ensures Valid()
      ensures Contents() == old(Contents())[e.Key() := old(e.Value()).Inheriting(old(Contents())[e.Key()])]
    {
      hide Keys.Key;
      ghost var before := Contents();
      var previous := entries[e.Key()];
      e.hitCount := previous.hitCount;
      e.lastHitAt := previous.lastHitAt;
      e.usedDays := previous.usedDays;
      assert Contents() == before;
      Store(e);
    }

    method MakeRoom(now: int) returns (victim: Option<string>)
      requires Valid()
      modifies `entries
      ensures Valid()
      ensures if |old(entries)| < cfg.maxEntries then victim == None else Evicts(old(Contents()), now, victim)
      ensures Contents() == Without(old(Contents()), victim)
    {
      if |entries| >= cfg.maxEntries {
        victim := EvictOne(now);
      } else {
        victim := None;
      }
    }

    method Store(e: CachedEntry)
      requires Valid()
      modifies `entries
      ensures Valid() && entries == old(entries)[e.Key() := e]
      ensures Contents() == old(Contents())[e.Key() := e.Value()]
    {
      hide Keys.Key;
      entries := entries[e.Key() := e];
    }

    /** The entry Set builds before it takes the lock. */
    method Build(q: Question, resp: Msg, given: nat, now: int) returns (e: CachedEntry)
      ensures fresh(e) && e.Value() == NewEntry(cfg, zone, q, resp, given, now)
    {
      var seconds := given;
      if resp.answer == [] {
        seconds := FirstSoaTtl(resp.ns, seconds);
      }
      if seconds == 0 {
        seconds := 60;
      }
      var ttl := seconds * SECOND;
      if ttl < cfg.ttlMin {
        ttl := cfg.ttlMin;
      }
      if ttl > cfg.ttlMax {
        ttl := cfg.ttlMax;
      }
      e := new CachedEntry(Entry(Keys.CanonicalName(q.name), q.qtype, resp, now, seconds, ttl, now + ttl,
                                 1, now, UsageDays.Pack(LocalDay(now, zone))));
    }

    /** Delete */
    method Delete(key: string)
      requires Valid()
      modifies `entries
      ensures Valid() && entries == old(entries) - {key}
      ensures Contents() == old(Contents()) - {key}
    {
      entries := entries - {key};
    }

    method LoadEntry(e: CachedEntry)
      requires Valid()
      modifies `entries
      ensures Valid() && entries == old(entries)[e.Key() := e]
      ensures Contents() == old(Contents())[e.Key() := e.Value()]
    {
      hide Keys.Key;
      Store(e);
    }

    /** The snapshot holds the map's own entry objects, not copies. */
    method Snapshot() returns (m: map<string, CachedEntry>)
      ensures m == entries
    {
      m := entries;
    }

    lemma NoEmptyKey()
      requires Valid()
      ensures forall k :: k in entries ==> k != ""
    {
      forall k | k in entries
        ensures k != ""
      {
        Keys.KeyNotEmpty(entries[k].name, entries[k].qtype);
      }
    }

    method EvictOne(now: int) returns (victim: Option<string>)
      requires Valid()
      modifies `entries
      ensures Valid()
      ensures Evicts(old(Contents()), now, victim)
      ensures Contents() == Without(old(Contents()), victim)
      ensures entries == match victim case Some(k) => old(entries) - {k} case None => old(entries)
    {
      hide Keys.Key;
      NoEmptyKey();
      victim := ChooseVictim(Contents(), now);
      if victim.Some? {
        Delete(victim.value);
      }
    }

    method RecordWindow(hit: bool, now: int)
      requires window.Length == WINDOW_MINUTES && now >= 0
      modifies window
      ensures window[..] == Record(old(window[..]), Minute(now), hit)
    {
      var minute := Minute(now);
      var i := minute % WINDOW_MINUTES;
      if window[i].minute != minute {
        window[i] := Bucket(minute, 0, 0);
      }
      if hit {
        window[i] := window[i].(hits := window[i].hits + 1);
      } else {
        window[i] := window[i].(misses := window[i].misses + 1);
      }
    }

    /** windowStats sums the buckets inside the window; WindowIsLog says what the sums are. */
    method WindowStats(now: int) returns (hits: nat, misses: nat)
      requires window.Length == WINDOW_MINUTES
      ensures hits == SumHits(window[..], Minute(now) - WINDOW_MINUTES, WINDOW_MINUTES)
      ensures misses == SumMisses(window[..], Minute(now) - WINDOW_MINUTES, WINDOW_MINUTES)
    {
      hits, misses := 0, 0;
      var cutoff := Minute(now) - WINDOW_MINUTES;
      for i := 0 to window.Length
        invariant hits == SumHits(window[..], cutoff, i)
        invariant misses == SumMisses(window[..], cutoff, i)
      {
        if window[i].minute > cutoff {
          hits := hits + window[i].hits;
          misses := misses + window[i].misses;
        }
      }
    }
  }

  /** The least recently used entry of the sample so far; no key while every recency is the largest
      int64. */
  ghost predicate Least(entries: map<string, Entry>, sample: set<string>, now: int, key: string, lastHitAt: int)
  {
    && Sampled(entries, sample, now)
    && if key == "" then lastHitAt == MAX_INT64 && AllAtMaximum(entries, sample)
       else Oldest(entries, sample, key) && entries[key].lastHitAt == lastHitAt < MAX_INT64
  }

  lemma LeastOneMore(entries: map<string, Entry>, sample: set<string>, now: int, key: string, lastHitAt: int, k: string)
    requires "" !in entries && Least(entries, sample, now, key, lastHitAt)
    requires k in entries && k !in sample && !Dead(entries[k], now) && |sample| < SAMPLE_SIZE
    ensures if entries[k].lastHitAt < lastHitAt then Least(entries, sample + {k}, now, k, entries[k].lastHitAt)
            else Least(entries, sample + {k}, now, key, lastHitAt)
  {
    hide Dead;
  }

  lemma LeastIsEvicted(entries: map<string, Entry>, sample: set<string>, now: int, key: string, lastHitAt: int)
    requires Least(entries, sample, now, key, lastHitAt) && |sample| == Min(SAMPLE_SIZE, |entries|)
    ensures Evicts(entries, now, if key != "" then Some(key) else None)
  {
    hide Dead;
    assert FullSample(entries, sample, now);
  }

  /** The loop of evictOne, over the entries in whatever order the map yields them. */
  method ChooseVictim(entries: map<string, Entry>, now: int) returns (victim: Option<string>)
    requires "" !in entries
    ensures Evicts(entries, now, victim)
  {
    hide Dead, Least;
    var oldestKey := "";
    var oldest := MAX_INT64;
    var count := 0;
    var todo := entries.Keys;
    ghost var sample := {};
    NothingSampled(entries, now);
    while todo != {} && count < SAMPLE_SIZE
      invariant sample == entries.Keys - todo && todo <= entries.Keys && count == |sample| <= SAMPLE_SIZE
      invariant Least(entries, sample, now, oldestKey, oldest)
      decreases |todo|
    {
      var k :| k in todo;
      var v := entries[k];
      if Dead(v, now) {
        return Some(k);
      }
      LeastOneMore(entries, sample, now, oldestKey, oldest, k);
      if v.lastHitAt < oldest {
        oldest := v.lastHitAt;
        oldestKey := k;
      }
      todo := todo - {k};
      sample := sample + {k};
      count := count + 1;
    }
    SubsetSize(sample, entries.Keys);
    assert todo == {} ==> sample == entries.Keys;
    assert |entries.Keys| == |entries|;
    LeastIsEvicted(entries, sample, now, oldestKey, oldest);
    return if oldestKey != "" then Some(oldestKey) else None;
  }

  lemma NothingSampled(entries: map<string, Entry>, now: int)
    ensures Least(entries, {}, now, "", MAX_INT64)
  {
  }

  /** The loop of Set over the authority section, which stops at the first SOA. */
  method FirstSoaTtl(ns: seq<RR>, given: nat) returns (ttl: nat)
    ensures ttl == NegativeTtl(ns, given)
  {
    for i := 0 to |ns|
      invariant NegativeTtl(ns, given) == NegativeTtl(ns[i..], given)
    {
      if ns[i].data.Soa? {
        return if ns[i].data.minttl <= ns[i].ttl then ns[i].data.minttl else ns[i].ttl;
      }
    }
    return given;
  }
}
