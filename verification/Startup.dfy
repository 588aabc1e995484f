/** The start of a server: rows in order, and what it holds after loading them. */
module Startup {
  import opened CacheInvariant
  import opened Caches
  import opened Clock
  import opened Entries
  import opened Persisting
  import opened RefreshModel
  import opened Rows
  import opened Server
  import opened ServerRuns
  import Keys
  import UsageDays

  // ---------------------------------------------------------------------------
  // From rows to entries
  // ---------------------------------------------------------------------------

  /** Every row loads as an entry the operations could have left. */
  ghost predicate RowsOk(env: Env, db: Table, now: int)
  {
    forall k :: k in db ==> EntryOk(env, Keys.Key(k.name, k.qtype), Decode(env.zone, k, db[k]), now)
  }

  /** A save and a load keep an entry in order, whatever columns read as missing. */
  lemma ReloadedIsOk(env: Env, key: string, e: Entry, now: int)
    requires GoodClock(env, now) && EntryOk(env, key, e, now)
    ensures EntryOk(env, key, Reloaded(env.zone, e), now)
  {
    hide Keys.Key, UsageDays.Pack, UsageDays.LastDay;
    var last := LastHit(Encode(e));
    assert Unix(last) + env.zone >= 0 && last <= now;
    LocalDayMonotone(last, now, env.zone);
    LocalDayMonotone(e.lastHitAt, last, env.zone);
    UsageDays.PackIsFirstMark(LocalDay(last, env.zone));
  }

  lemma KeyOfOk(env: Env, key: string, e: Entry, now: int)
    requires EntryOk(env, key, e, now)
    ensures key == Keys.Key(KeyOf(e).name, KeyOf(e).qtype)
  {
    hide Keys.Key;
  }

  // ---------------------------------------------------------------------------
  // The start
  // ---------------------------------------------------------------------------

  /** The map after LoadEntry of each, in order. */
  function Loaded(entries: seq<Entry>): map<string, Entry>
  {
    if entries == [] then map[]
    else
      var e := entries[|entries| - 1];
      Loaded(entries[..|entries| - 1])[e.Key() := e]
  }

  /** The loop of the server's start over what LoadAll returned. */
  method LoadInto(cache: Cache, entries: seq<CachedEntry>)
    requires cache.Valid() && cache.entries == map[]
    modifies cache`entries
    ensures cache.Valid() && cache.Contents() == Loaded(ValuesOf(entries))
  {
    hide Keys.Key, ValuesOf, Loaded;
    NothingLoadedYet(entries[..0]);
    for i := 0 to |entries|
      invariant cache.Valid() && cache.Contents() == Loaded(ValuesOf(entries[..i]))
    {
      assert entries[..i + 1] == entries[..i] + [entries[i]];
      ValuesOfMore(entries[..i], entries[i]);
      LoadedMore(ValuesOf(entries[..i]), entries[i].Value());
      cache.LoadEntry(entries[i]);
      assert entries[i].Value().Key() == entries[i].Key();
    }
    assert entries[..|entries|] == entries;
  }

  lemma NothingLoadedYet(entries: seq<CachedEntry>)
    requires entries == []
    ensures Loaded(ValuesOf(entries)) == map[]
  {
  }

  lemma LoadedMore(entries: seq<Entry>, e: Entry)
    ensures Loaded(entries + [e]) == Loaded(entries)[e.Key() := e]
  {
    hide Keys.Key;
    assert (entries + [e])[..|entries|] == entries;
  }

  lemma {:induction false} LoadedIsOk(env: Env, entries: seq<Entry>, now: int)
    requires forall i :: 0 <= i < |entries| ==> EntryOk(env, entries[i].Key(), entries[i], now)
    ensures forall k :: k in Loaded(entries) ==> EntryOk(env, k, Loaded(entries)[k], now)
  {
    hide EntryOk, Keys.Key;
    if entries != [] {
      LoadedIsOk(env, entries[..|entries| - 1], now);
    }
  }

  /** Whatever rows in order LoadAll reads back, the server starts within its invariants. */
  lemma StartIsOk(env: Env, db: Table, now: int, entries: seq<Entry>)
    requires env.Valid() && GoodClock(env, now) && RowsOk(env, db, now)
    requires Loads(env.zone, now, env.cfg.KeepWindow(), db, entries)
    ensures Inv(env, Loaded(entries), Start(now, Loaded(entries))) && Balanced(Start(now, Loaded(entries)))
  {
    hide EntryOk, Keys.Key, GoodClock, Loadable;
    forall i | 0 <= i < |entries|
      ensures EntryOk(env, entries[i].Key(), entries[i], now)
    {
      var k := KeyOf(entries[i]);
      assert entries[i] == Decode(env.zone, k, db[k]) && entries[i].Key() == Keys.Key(k.name, k.qtype);
    }
    LoadedIsOk(env, entries, now);
  }

  /** Different rows in order load under different keys, so no entry is loaded over another. */
  lemma DistinctKeys(env: Env, db: Table, now: int, j: RowKey, k: RowKey)
    requires RowsOk(env, db, now) && j in db && k in db && j != k
    ensures Keys.Key(j.name, j.qtype) != Keys.Key(k.name, k.qtype)
  {
    hide Keys.Key, Keys.CanonicalName, UsageDays.LastDay, UsageDays.Pack;
    assert EntryOk(env, Keys.Key(j.name, j.qtype), Decode(env.zone, j, db[j]), now);
    assert EntryOk(env, Keys.Key(k.name, k.qtype), Decode(env.zone, k, db[k]), now);
    Keys.KeyFaithful(j.name, j.qtype, k.name, k.qtype);
  }

  lemma {:induction false} LoadedHas(entries: seq<Entry>, i: nat)
    requires i < |entries| && forall a, b :: 0 <= a < b < |entries| ==> entries[a].Key() != entries[b].Key()
    ensures entries[i].Key() in Loaded(entries) && Loaded(entries)[entries[i].Key()] == entries[i]
  {
    hide Keys.Key;
    if i < |entries| - 1 {
      LoadedHas(entries[..|entries| - 1], i);
    }
  }

  /** What LoadAll read back is what the server starts with, entry by entry. */
  lemma LoadedKeepsEach(env: Env, db: Table, now: int, entries: seq<Entry>, i: nat)
    requires RowsOk(env, db, now) && Loads(env.zone, now, env.cfg.KeepWindow(), db, entries) && i < |entries|
    ensures entries[i].Key() in Loaded(entries) && Loaded(entries)[entries[i].Key()] == entries[i]
  {
    hide Keys.Key, Loadable, EntryOk;
    forall a, b | 0 <= a < b < |entries|
      ensures entries[a].Key() != entries[b].Key()
    {
      DistinctKeys(env, db, now, KeyOf(entries[a]), KeyOf(entries[b]));
    }
    LoadedHas(entries, i);
  }
}
