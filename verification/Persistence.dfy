/** The database and the save loop as the source has them (persistence.go and persistLoop in main.go): a
    table written by all-or-nothing batches, rows read back one by one, and a reference time that moves
    only when a save succeeds. */
module Persisting {
  import opened Caches
  import opened Clock
  import opened Entries
  import opened PersistProtocol
  import opened RefreshModel
  import opened Rows
  import Keys
  import Sets
  import UsageDays

  /** The table after writing the entries' rows in order. */
  function Written(t: Table, entries: seq<Entry>): Table
  {
    if entries == [] then t
    else
      var e := entries[|entries| - 1];
      Written(t, entries[..|entries| - 1])[KeyOf(e) := Encode(e)]
  }

  function ValuesOf(batch: seq<CachedEntry>): (values: seq<Entry>)
    reads batch
    ensures |values| == |batch|
  {
    if batch == [] then [] else ValuesOf(batch[..|batch| - 1]) + [batch[|batch| - 1].Value()]
  }

  /** When the entries have distinct row keys, every one of them is in sync afterwards and every other row is
      as it was. */
  lemma {:induction false} RowsAfterWriting(t: Table, entries: seq<Entry>, k: RowKey)
    requires forall i, j :: 0 <= i < j < |entries| ==> KeyOf(entries[i]) != KeyOf(entries[j])
    ensures forall i :: 0 <= i < |entries| && KeyOf(entries[i]) == k ==>
              k in Written(t, entries) && Written(t, entries)[k] == Encode(entries[i])
    ensures (forall i :: 0 <= i < |entries| ==> KeyOf(entries[i]) != k) ==>
              (k in Written(t, entries) <==> k in t) && (k in t ==> Written(t, entries)[k] == t[k])
  {
    hide Encode;
    if entries != [] {
      RowsAfterWriting(t, entries[..|entries| - 1], k);
    }
  }

  lemma NothingWritten(t: Table, batch: seq<CachedEntry>)
    requires batch == []
    ensures Written(t, ValuesOf(batch)) == t
  {
  }

  lemma WrittenOneMore(t: Table, batch: seq<CachedEntry>, i: nat)
    requires i < |batch|
    ensures var e := batch[i].Value();
            Written(t, ValuesOf(batch[..i + 1])) == Written(t, ValuesOf(batch[..i]))[KeyOf(e) := Encode(e)]
  {
    hide Encode;
    assert batch[..i + 1][..i] == batch[..i];
    assert (ValuesOf(batch[..i]) + [batch[i].Value()])[..i] == ValuesOf(batch[..i]);
  }

  class Persistence {
    var db: Table

    constructor (db: Table)
      ensures this.db == db
    {
      this.db := db;
    }

    /** SaveBatch. `fault` is the statement that fails, if any: 0 to begin, i to write the i-th row, one
        more than the rows to commit. */
    method SaveBatch(batch: seq<CachedEntry>, fault: nat) returns (ok: bool)
      modifies `db
      ensures ok <==> batch == [] || fault > |batch| + 1
      ensures db == if ok then Written(old(db), ValuesOf(batch)) else old(db)
    {
      hide Encode, Written, ValuesOf;
      if batch == [] {
        NothingWritten(db, batch);
        return true;
      }
      if fault == 0 {
        return false;
      }
      var tx := db;
      NothingWritten(db, batch[..0]);
      for i := 0 to |batch|
        invariant db == old(db) && fault > i && tx == Written(db, ValuesOf(batch[..i]))
      {
        if fault == i + 1 {
          return false;
        }
        var e := batch[i].Value();
        WrittenOneMore(db, batch, i);
        tx := tx[KeyOf(e) := Encode(e)];
      }
      assert batch[..|batch|] == batch;
      if fault == |batch| + 1 {
        return false;
      }
      db := tx;
      return true;
    }

    /** LoadAll: one new entry for each row asked for within the keep window, whatever the order of the rows.
        Rows in `damaged` fail to scan or to unpack and are skipped; `fault` fails the query. */
    method LoadAll(zone: int, now: int, keepWindow: int, damaged: set<RowKey>, fault: bool)
      returns (ok: bool, entries: seq<CachedEntry>)
      ensures ok == !fault && fresh(entries)
      ensures ok ==> Loads(zone, now, keepWindow, db - damaged, ValuesOf(entries))
    {
      hide ValuesOf, Loads;
      ok, entries := true, [];
      if fault {
        return false, entries;
      }
      NothingLoaded(zone, now, keepWindow, entries);
      var todo := db.Keys;
      ghost var read: Table := map[];
      while todo != {}
        invariant todo <= db.Keys && read.Keys == db.Keys - todo - damaged && forall k :: k in read ==> read[k] == db[k]
        invariant fresh(entries) && Loads(zone, now, keepWindow, read, ValuesOf(entries))
      {
        var k :| k in todo;
        todo := todo - {k};
        if k in damaged {
          continue;
        }
        LoadsOneMore(zone, now, keepWindow, read, ValuesOf(entries), k, db[k]);
        read := read[k := db[k]];
        var e := Load(zone, now, keepWindow, k, db[k]);
        if e != null {
          ghost var before := entries;
          entries := entries + [e];
          ValuesOfMore(before, e);
        }
      }
      assert read == db - damaged;
    }

    /** The body of LoadAll's loop: the fallbacks for columns the row lacks, and the filter. */
    method Load(zone: int, now: int, keepWindow: int, k: RowKey, r: Row) returns (e: CachedEntry?)
      ensures (e != null) == Loadable(r, now, keepWindow) == (now - AskedLast(r) <= keepWindow)
      ensures e != null ==> fresh(e) && e.Value() == Decode(zone, k, r) && TellsOf(zone, k, r, e.Value())
    {
      LoadedColumns(zone, k, r, now, keepWindow);
      hide TellsOf, UsageDays.Pack;
      var storedAt := r.storedAt * SECOND;
      var ttl := r.cachedTtl * SECOND;
      if ttl <= 0 {
        ttl := r.originalTtl * SECOND;
      }
      var lastHitAt := r.lastHitAt;
      if lastHitAt == 0 {
        lastHitAt := storedAt;
      }
      if now - lastHitAt > keepWindow {
        return null;
      }
      var usedDays := r.usedDays;
      if usedDays == 0 {
        usedDays := UsageDays.Pack(LocalDay(lastHitAt, zone));
      }
      e := new CachedEntry(Entry(k.name, k.qtype, r.data, storedAt, r.originalTtl, ttl, storedAt + ttl,
                                 r.hitCount, lastHitAt, usedDays));
    }

    /** Cleanup deletes by fetch time and counts what it deletes. */
    method Cleanup(now: int, after: int) returns (n: nat)
      modifies `db
      ensures db == map k | k in old(db) && !CleanedUp(old(db)[k], now, after) :: old(db)[k]
      ensures n == |old(db)| - |db|
    {
      var kept := map k | k in db && !CleanedUp(db[k], now, after) :: db[k];
      assert kept.Keys <= db.Keys && |kept| == |kept.Keys| && |db| == |db.Keys|;
      Sets.SubsetSize(kept.Keys, db.Keys);
      n := |db| - |kept|;
      db := kept;
    }
  }

  /** The entries are the decoded loadable rows, one entry for each. */
  ghost predicate Loads(zone: int, now: int, keepWindow: int, db: Table, entries: seq<Entry>)
  {
    && (forall i, j :: 0 <= i < j < |entries| ==> KeyOf(entries[i]) != KeyOf(entries[j]))
    && (forall i :: 0 <= i < |entries| ==>
          var k := KeyOf(entries[i]);
          k in db && Loadable(db[k], now, keepWindow) && entries[i] == Decode(zone, k, db[k]))
    && forall k :: k in db && Loadable(db[k], now, keepWindow) ==> Decode(zone, k, db[k]) in entries
  }

  lemma NothingLoaded(zone: int, now: int, keepWindow: int, entries: seq<CachedEntry>)
    requires entries == []
    ensures Loads(zone, now, keepWindow, map[], ValuesOf(entries))
  {
  }

  lemma ValuesOfMore(entries: seq<CachedEntry>, e: CachedEntry)
    ensures ValuesOf(entries + [e]) == ValuesOf(entries) + [e.Value()]
  {
    assert (entries + [e])[..|entries|] == entries;
  }

  lemma LoadsOneMore(zone: int, now: int, keepWindow: int, db: Table, entries: seq<Entry>, k: RowKey, r: Row)
    requires k !in db && Loads(zone, now, keepWindow, db, entries)
    ensures Loads(zone, now, keepWindow, db[k := r],
                  if Loadable(r, now, keepWindow) then entries + [Decode(zone, k, r)] else entries)
  {
    hide Loadable, LastHit, Ttl, Rows.Days;
    var more := if Loadable(r, now, keepWindow) then entries + [Decode(zone, k, r)] else entries;
    var next := db[k := r];
    forall x | x in next && Loadable(next[x], now, keepWindow)
      ensures Decode(zone, x, next[x]) in more
    {
      if x == k {
        assert more[|entries|] == Decode(zone, k, r);
      } else {
        assert Decode(zone, x, db[x]) in entries;
      }
    }
  }

  // ---------------------------------------------------------------------------
  // The save loop
  // ---------------------------------------------------------------------------

  /** Every entry filed under its own key, as Cache.Valid says. */
  predicate Filed(entries: map<string, Entry>)
  {
    forall k :: k in entries ==> entries[k].Key() == k
  }

  /** The changed ones among the entries in `done`, each once. */
  ghost predicate Changed(entries: map<string, Entry>, since: int, done: set<string>, batch: seq<Entry>)
  {
    && (forall i :: 0 <= i < |batch| ==>
          var k := batch[i].Key();
          k in done && k in entries && entries[k] == batch[i] && Stamped(batch[i], since))
    && (forall i, j :: 0 <= i < j < |batch| ==> batch[i].Key() != batch[j].Key())
    && forall k :: k in done && k in entries && Stamped(entries[k], since) ==> entries[k] in batch
  }

  lemma ChangedOneMore(entries: map<string, Entry>, since: int, done: set<string>, batch: seq<Entry>, k: string)
    requires Filed(entries) && k in entries && k !in done && Changed(entries, since, done, batch)
    ensures Changed(entries, since, done + {k}, if Stamped(entries[k], since) then batch + [entries[k]] else batch)
  {
    hide Keys.Key, Stamped;
    var more := if Stamped(entries[k], since) then batch + [entries[k]] else batch;
    forall x | x in done + {k} && x in entries && Stamped(entries[x], since)
      ensures entries[x] in more
    {
      if x == k {
        assert more[|batch|] == entries[x];
      } else {
        assert entries[x] in batch;
      }
    }
  }

  predicate SameRows(t: Table, t': Table, k: RowKey)
  {
    (k in t' <==> k in t) && (k in t ==> t'[k] == t[k])
  }

  /** A save done: the row of every changed entry is that entry's, every other row is as it was. */
  ghost predicate Saved(t: Table, t': Table, entries: map<string, Entry>, since: int)
  {
    && (forall k :: k in entries && Stamped(entries[k], since) ==>
          KeyOf(entries[k]) in t' && t'[KeyOf(entries[k])] == Encode(entries[k]))
    && forall r :: (forall k :: k in entries && Stamped(entries[k], since) ==> KeyOf(entries[k]) != r) ==>
         SameRows(t, t', r)
  }

  lemma WrittenIsSaved(t: Table, entries: map<string, Entry>, since: int, batch: seq<Entry>)
    requires Changed(entries, since, entries.Keys, batch)
    ensures Saved(t, Written(t, batch), entries, since)
  {
    hide Stamped, Encode, Changed, Written, SameRows;
    forall k | k in entries && Stamped(entries[k], since)
      ensures KeyOf(entries[k]) in Written(t, batch) && Written(t, batch)[KeyOf(entries[k])] == Encode(entries[k])
    {
      ChangedIsWritten(t, entries, since, batch, k);
    }
    forall r | forall k :: k in entries && Stamped(entries[k], since) ==> KeyOf(entries[k]) != r
      ensures SameRows(t, Written(t, batch), r)
    {
      OthersAreKept(t, entries, since, batch, r);
    }
  }

  lemma DistinctRows(entries: map<string, Entry>, since: int, batch: seq<Entry>)
    requires Changed(entries, since, entries.Keys, batch)
    ensures forall i, j :: 0 <= i < j < |batch| ==> KeyOf(batch[i]) != KeyOf(batch[j])
  {
    hide Stamped, Keys.Key;
    forall i, j | 0 <= i < j < |batch|
      ensures KeyOf(batch[i]) != KeyOf(batch[j])
    {
      assert batch[i].Key() != batch[j].Key();
    }
  }

  lemma ChangedIsWritten(t: Table, entries: map<string, Entry>, since: int, batch: seq<Entry>, k: string)
    requires Changed(entries, since, entries.Keys, batch) && k in entries && Stamped(entries[k], since)
    ensures KeyOf(entries[k]) in Written(t, batch) && Written(t, batch)[KeyOf(entries[k])] == Encode(entries[k])
  {
    hide Stamped, Encode, Written, Keys.Key;
    DistinctRows(entries, since, batch);
    assert entries[k] in batch;
    RowsAfterWriting(t, batch, KeyOf(entries[k]));
  }

  lemma OthersAreKept(t: Table, entries: map<string, Entry>, since: int, batch: seq<Entry>, r: RowKey)
    requires Changed(entries, since, entries.Keys, batch)
    requires forall k :: k in entries && Stamped(entries[k], since) ==> KeyOf(entries[k]) != r
    ensures SameRows(t, Written(t, batch), r)
  {
    hide Stamped, Encode, Written, Keys.Key;
    DistinctRows(entries, since, batch);
    forall i | 0 <= i < |batch|
      ensures KeyOf(batch[i]) != r
    {
      assert entries[batch[i].Key()] == batch[i];
    }
    RowsAfterWriting(t, batch, r);
  }

  /** If before a save every entry matched its row or was stamped since the last one, after it every entry
      matches its row. */
  lemma SavedIsInSync(zone: int, t: Table, t': Table, entries: map<string, Entry>, since: int)
    requires Filed(entries) && Saved(t, t', entries, since)
    requires forall k :: k in entries ==> Stamped(entries[k], since) || InSync(zone, t, entries[k])
    ensures forall k :: k in entries ==> InSync(zone, t', entries[k])
  {
    hide Stamped, Encode, Decode;
    forall k | k in entries
      ensures InSync(zone, t', entries[k])
    {
      var r := KeyOf(entries[k]);
      if !Stamped(entries[k], since) {
        forall x | x in entries && Stamped(entries[x], since)
          ensures KeyOf(entries[x]) != r
        {
          assert entries[x].Key() == x && entries[k].Key() == k;
        }
        assert SameRows(t, t', r);
      }
    }
  }

  /** A restart, however late, brings back every entry that was in sync and is usual then: the load returns
      it, with its key, hits, last request and usage days. */
  lemma RestartBringsBackUsual(cfg: Config, zone: int, db: Table, e: Entry, now: int, loaded: seq<Entry>)
    requires InSync(zone, db, e) && Loads(zone, now, cfg.KeepWindow(), db, loaded)
    requires cfg.Normal() && HistoryInOrder(e, zone) && cfg.Usual(e, now, zone)
    requires e.lastHitAt != 0
    ensures var r := Reloaded(zone, e);
            && r in loaded && r.Key() == e.Key() && cfg.Usual(r, now, zone)
            && r.hitCount == e.hitCount && r.lastHitAt == e.lastHitAt && r.usedDays == e.usedDays
  {
    hide UsageDays.DaysUsed, Keys.Key, HistoryInOrder;
    UsualHasHistory(cfg, e, now, zone);
    RestartKeepsUsual(cfg, zone, e, now);
    assert LastHit(db[KeyOf(e)]) == LastHit(Encode(e));
  }

  class Persister {
    const cache: Cache
    const store: Persistence
    var lastSave: int

    /** The entries just loaded are saved as they are. */
    constructor (cache: Cache, store: Persistence, now: int)
      ensures this.cache == cache && this.store == store && lastSave == now
    {
      this.cache, this.store, lastSave := cache, store, now;
    }

    /** One round of persistLoop: the reference time is read before the scan and moves only if the save
        succeeds. */
    method Tick(start: int, fault: nat) returns (ok: bool)
      requires cache.Valid()
      modifies this`lastSave, store
      ensures ok ==> lastSave == start && Saved(old(store.db), store.db, cache.Contents(), old(lastSave))
      ensures !ok ==> lastSave == old(lastSave) && store.db == old(store.db)
    {
      hide Keys.Key, Stamped, Saved, Changed, Written, ValuesOf;
      var since := lastSave;
      var batch := Scan(since);
      WrittenIsSaved(store.db, cache.Contents(), since, ValuesOf(batch));
      ok := store.SaveBatch(batch, fault);
      if !ok {
        return;
      }
      lastSave := start;
    }

    /** The scan over the cache's entries, in whatever order the map yields them. */
    method Scan(since: int) returns (batch: seq<CachedEntry>)
      requires cache.Valid()
      ensures Filed(cache.Contents())
      ensures Changed(cache.Contents(), since, cache.Contents().Keys, ValuesOf(batch))
    {
      hide Keys.Key, Changed, ValuesOf, Stamped;
      batch := [];
      NothingChanged(since, batch);
      var todo := cache.entries.Keys;
      while todo != {}
        invariant todo <= cache.entries.Keys
        invariant Changed(cache.Contents(), since, cache.entries.Keys - todo, ValuesOf(batch))
        decreases |todo|
      {
        var k :| k in todo;
        ghost var done := cache.entries.Keys - todo;
        todo := todo - {k};
        assert cache.entries.Keys - todo == done + {k};
        ChangedOneMore(cache.Contents(), since, done, ValuesOf(batch), k);
        var e := cache.entries[k];
        ValuesOfMore(batch, e);
        if Stamped(e.Value(), since) {
          batch := batch + [e];
        }
      }
      assert cache.entries.Keys - todo == cache.Contents().Keys;
    }

    lemma NothingChanged(since: int, batch: seq<CachedEntry>)
      requires batch == []
      ensures Changed(cache.Contents(), since, cache.entries.Keys - cache.entries.Keys, ValuesOf(batch))
    {
    }
  }

  // ---------------------------------------------------------------------------
  // Loads and saves in the columns
  // ---------------------------------------------------------------------------

  /** What LoadAll returns: for each row whose last request is within the keep window an entry as the row tells, and
      nothing else. */
  lemma LoadsInColumns(zone: int, now: int, keepWindow: int, db: Table, entries: seq<Entry>)
    requires Loads(zone, now, keepWindow, db, entries)
    ensures forall k :: k in db ==>
              (now - AskedLast(db[k]) <= keepWindow <==> exists i :: 0 <= i < |entries| && KeyOf(entries[i]) == k)
    ensures forall i :: 0 <= i < |entries| ==>
              KeyOf(entries[i]) in db && TellsOf(zone, KeyOf(entries[i]), db[KeyOf(entries[i])], entries[i])
  {
    hide Decode, Loadable, TellsOf, AskedLast;
    forall k | k in db
      ensures now - AskedLast(db[k]) <= keepWindow <==> exists i :: 0 <= i < |entries| && KeyOf(entries[i]) == k
    {
      LoadedColumns(zone, k, db[k], now, keepWindow);
      if Loadable(db[k], now, keepWindow) {
        assert Decode(zone, k, db[k]) in entries;
        DecodedKey(zone, k, db[k]);
      }
    }
    forall i | 0 <= i < |entries|
      ensures TellsOf(zone, KeyOf(entries[i]), db[KeyOf(entries[i])], entries[i])
    {
      LoadedColumns(zone, KeyOf(entries[i]), db[KeyOf(entries[i])], now, keepWindow);
    }
  }

  lemma DecodedKey(zone: int, k: RowKey, r: Row)
    ensures KeyOf(Decode(zone, k, r)) == k
  {
  }

  /** The batch of a round: exactly the entries fetched or asked for since the last save. */
  lemma BatchInFields(entries: map<string, Entry>, since: int, batch: seq<Entry>, k: string)
    requires Filed(entries) && Changed(entries, since, entries.Keys, batch) && k in entries
    ensures entries[k] in batch <==> entries[k].storedAt >= since || entries[k].lastHitAt >= since
  {
    hide Keys.Key;
  }

  /** A save done, in the columns: the rows of the entries fetched or asked for since the last save tell of them as
      SavedColumns says, every other row is as it was. */
  lemma SavedInColumns(t: Table, t': Table, entries: map<string, Entry>, since: int, k: string)
    requires Saved(t, t', entries, since) && k in entries
    ensures var e := entries[k];
            (e.storedAt >= since || e.lastHitAt >= since) ==>
              && RowKey(e.name, e.qtype) in t'
              && var r := t'[RowKey(e.name, e.qtype)];
              && r.data == e.response && r.originalTtl == e.originalTtl && r.hitCount == e.hitCount
              && r.lastHitAt == e.lastHitAt && r.usedDays == e.usedDays
              && r.storedAt * 1_000_000_000 <= e.storedAt < (r.storedAt + 1) * 1_000_000_000
  {
    SavedColumns(entries[k]);
    hide Encode;
  }
}
