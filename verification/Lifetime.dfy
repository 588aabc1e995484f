/** The whole life of a server: it serves while its entries are saved row by row, its rows are cleaned up,
    and it restarts from them, perhaps with another configuration. The server's state machine and the save
    protocol run together, the protocol's objects being the server's entries. */
module Lifetime {
  import opened CacheInvariant
  import opened CacheModel
  import opened Dns
  import opened Entries
  import opened Options
  import opened Persisting
  import opened RefreshModel
  import opened Rows
  import opened Server
  import opened ServerRuns
  import opened Startup
  import Keys
  import P = PersistProtocol
  import UsageDays

  /** `loaded`: what the running server started with. `saver`: the save protocol, with the table as if no row
      were ever cleaned up; `cleaned`: the rows that were, and have not been written again. */
  datatype World = World(env: Env, server: Server, loaded: map<string, Entry>, saver: P.State, cleaned: set<RowKey>)

  datatype Act =
    | Serve(ev: Event, id: nat)
    | Save(step: P.Event)
    | Clean(after: int)
    | Restart(env: Env, now: int, damaged: set<RowKey>, entries: seq<Entry>, heap: map<nat, Entry>,
              index: map<string, nat>)

  /** The table in the database. */
  function TableOf(w: World): Table
  {
    w.saver.db - w.cleaned
  }

  /** The saver's objects are the entries. */
  ghost predicate Holds(s: P.State, entries: map<string, Entry>)
  {
    && s.index.Keys == entries.Keys
    && forall k :: k in s.index ==> s.index[k] in s.heap && s.heap[s.index[k]] == entries[k]
  }

  ghost predicate ObjectsOk(env: Env, heap: map<nat, Entry>, now: int)
  {
    forall id :: id in heap ==> EntryOk(env, heap[id].Key(), heap[id], now)
  }

  ghost predicate SaverGood(env: Env, s: P.State, entries: map<string, Entry>, now: int)
  {
    && s.now == now && Holds(s, entries)
    && P.Inv(env.zone, s)
    && ObjectsOk(env, s.heap, now)
    && RowsOk(env, s.db, now)
    && (s.phase.Writing? ==> RowsOk(env, s.phase.tx, now))
  }

  ghost predicate Good(w: World)
  {
    && Inv(w.env, w.loaded, w.server)
    && Balanced(w.server)
    && SaverGood(w.env, w.saver, w.server.cache.entries, w.server.now)
  }

  /** Server and saver hold the same entries. */
  ghost predicate Coupled(w: World)
  {
    Sane(w.env, w.server) && P.Shape(w.saver) && Holds(w.saver, w.server.cache.entries)
  }

  // ---------------------------------------------------------------------------
  // The acts
  // ---------------------------------------------------------------------------

  predicate IsSaveStep(step: P.Event)
  {
    step.StartScan? || step.ScanOne? || step.EndScan? || step.WriteOne? || step.Commit? || step.SaveFails?
  }

  /** Insertions and deletions wait while the scan holds the lock. */
  ghost predicate Possible(w: World, act: Act)
    requires Coupled(w)
  {
    match act
    case Serve(ev, id) =>
      && Enabled(w.env, w.server, ev) && id !in w.saver.heap
      && (ev.Reply? || ev.Refreshed? || ev.Tick? ==> !w.saver.phase.Scanning?)
    case Save(step) => IsSaveStep(step) && P.Enabled(w.env.zone, w.saver, step)
    case Clean(_) => true
    case Restart(env, now, damaged, entries, heap, index) =>
      && env.Valid() && env.zone == w.env.zone && w.server.now <= now && GoodClock(env, now)
      && Loads(env.zone, now, env.cfg.KeepWindow(), TableOf(w) - damaged, entries)
      && (forall id :: id in heap ==> heap[id] in entries)
      && index.Keys == Loaded(entries).Keys
      && forall k :: k in index ==> index[k] in heap && heap[index[k]] == Loaded(entries)[k]
  }

  /** What the saver sees of an event. */
  ghost function Follow(env: Env, server: Server, s: P.State, ev: Event, id: nat): P.State
    requires Sane(env, server) && P.Shape(s) && Holds(s, server.cache.entries)
  {
    var entries := server.cache.entries;
    match ev
    case Advance(to) => s.(now := to)
    case Lookup(key) =>
      if key !in entries then s
      else s.(heap := s.heap[s.index[key] := Asked(env.cfg, env.zone, entries[key], server.now)])
    case Stale(key) =>
      if StaleHits(env.cfg, server.cache, key, server.now) then
        s.(heap := s.heap[s.index[key] := GetStale(env.cfg, server.cache, key, server.now).entries[key]])
      else s
    case Reply(q, resp, victim) =>
      P.InstallIn(s, id, NewEntry(env.cfg, env.zone, q, resp, AnswerTtl(resp), server.now), victim)
    case Refreshed(q, resp, victim) =>
      P.InstallIn(s, id, NewEntry(env.cfg, env.zone, q, resp, RefreshTtl(resp), server.now), victim)
    case Tick(_) => s.(index := s.index - (s.index.Keys - Apply(env, server, ev).cache.entries.Keys))
    case _ => s
  }

  ghost function After(w: World, act: Act): World
    requires Coupled(w) && Possible(w, act)
  {
    match act
    case Serve(ev, id) => w.(server := Apply(w.env, w.server, ev), saver := Follow(w.env, w.server, w.saver, ev, id))
    case Save(step) =>
      w.(saver := P.Apply(w.env.cfg, w.env.zone, w.saver, step),
         cleaned := if step.Commit? then w.cleaned - w.saver.phase.tx.Keys else w.cleaned)
    case Clean(after) =>
      w.(cleaned := w.cleaned + set k | k in w.saver.db && CleanedUp(w.saver.db[k], w.server.now, after))
    case Restart(env, now, _, entries, heap, index) =>
      World(env, Start(now, Loaded(entries)), Loaded(entries),
            w.saver.(now := now, heap := heap, index := index, lastSave := now, phase := P.Idle), w.cleaned)
  }

  // ---------------------------------------------------------------------------
  // The saver keeps up
  // ---------------------------------------------------------------------------

  lemma GoodIsCoupled(w: World)
    requires Good(w)
    ensures Coupled(w)
  {
    hide EntryOk, TtlOk, P.NothingLost, P.SaveInv, ObjectsOk, RowsOk;
  }

  lemma ShapeOfInv(zone: int, s: P.State)
    requires P.Inv(zone, s)
    ensures P.Shape(s)
  {
    hide P.NothingLost, P.SaveInv;
  }

  /** A change made now is stamped late enough at any moment of a save. */
  lemma StampedNow(zone: int, s: P.State, key: string, e: Entry)
    requires P.Inv(zone, s) && key in s.index && (e.lastHitAt == s.now || e.storedAt == s.now)
    ensures P.Stamped(e, P.FloorOf(s, key)) && P.Stamped(e, P.Floor(s))
  {
    hide P.NothingLost, P.StillToRead, P.Covered, P.Pending, Keys.Key;
  }

  lemma ObjectsAfter(env: Env, heap: map<nat, Entry>, now: int, id: nat, e: Entry)
    requires ObjectsOk(env, heap, now) && EntryOk(env, e.Key(), e, now)
    ensures ObjectsOk(env, heap[id := e], now)
  {
    hide EntryOk;
  }

  lemma HoldsAfterChange(s: P.State, entries: map<string, Entry>, key: string, e: Entry)
    requires P.Shape(s) && Holds(s, entries) && key in entries
    ensures Holds(s.(heap := s.heap[s.index[key] := e]), entries[key := e])
  {
    hide Keys.Key;
  }

  lemma ChangeKeeps(env: Env, s: P.State, entries: map<string, Entry>, now: int, key: string, e: Entry)
    requires SaverGood(env, s, entries, now) && key in entries && EntryOk(env, key, e, now) && e.Key() == key
    requires e.storedAt == entries[key].storedAt && e.lastHitAt == now
    ensures SaverGood(env, s.(heap := s.heap[s.index[key] := e]), entries[key := e], now)
  {
    hide Keys.Key, EntryOk, P.Inv, P.Shape, RowsOk, ObjectsOk;
    ShapeOfInv(env.zone, s);
    StampedNow(env.zone, s, key, e);
    P.ChangeKeepsInv(env.zone, s, key, e);
    ObjectsAfter(env, s.heap, now, s.index[key], e);
    HoldsAfterChange(s, entries, key, e);
  }

  lemma HoldsAfterInstall(s: P.State, entries: map<string, Entry>, id: nat, e: Entry, victim: Option<string>)
    requires P.Shape(s) && Holds(s, entries) && id !in s.heap && (e.Key() in entries ==> victim == None)
    ensures e.Key() in s.index ==> s.index[e.Key()] in s.heap
    ensures Holds(P.InstallIn(s, id, e, victim), Insert(entries, e, victim))
  {
    hide Keys.Key;
  }

  lemma InstallKeeps(env: Env, s: P.State, entries: map<string, Entry>, now: int, id: nat, e: Entry,
                     victim: Option<string>)
    requires SaverGood(env, s, entries, now) && !s.phase.Scanning? && id !in s.heap && e.storedAt == now
    requires e.Key() in entries ==> victim == None
    requires EntryOk(env, e.Key(), Insert(entries, e, victim)[e.Key()], now)
    ensures P.Shape(s)
    ensures SaverGood(env, P.InstallIn(s, id, e, victim), Insert(entries, e, victim), now)
  {
    hide Keys.Key, EntryOk, P.Inv, P.Shape, RowsOk, ObjectsOk, P.SaveInv, P.NothingLost;
    ShapeOfInv(env.zone, s);
    HoldsAfterInstall(s, entries, id, e, victim);
    InstalledNow(env.zone, s, e);
    P.InstallKeepsInv(env.zone, s, id, e, victim);
    SameKey(e, s);
    ObjectsAfter(env, s.heap, now, id, P.Installed(s, e));
  }

  lemma SameKey(e: Entry, s: P.State)
    requires e.Key() in s.index ==> s.index[e.Key()] in s.heap
    ensures P.Installed(s, e).Key() == e.Key()
  {
    hide Keys.Key;
  }

  lemma InstalledNow(zone: int, s: P.State, e: Entry)
    requires P.Inv(zone, s) && e.storedAt == s.now && (e.Key() in s.index ==> s.index[e.Key()] in s.heap)
    ensures P.Stamped(P.Installed(s, e), P.Floor(s))
  {
    hide P.NothingLost, P.Covered, P.Pending, Keys.Key;
  }

  lemma RemoveKeeps(env: Env, s: P.State, entries: map<string, Entry>, now: int, rest: map<string, Entry>)
    requires SaverGood(env, s, entries, now) && !s.phase.Scanning?
    requires rest.Keys <= entries.Keys && forall k :: k in rest ==> rest[k] == entries[k]
    ensures SaverGood(env, s.(index := s.index - (s.index.Keys - rest.Keys)), rest, now)
  {
    hide Keys.Key, EntryOk, P.Inv, RowsOk, ObjectsOk;
    P.RemoveKeepsInv(env.zone, s, s.index.Keys - rest.Keys);
  }

  lemma TimeKeeps(env: Env, s: P.State, entries: map<string, Entry>, now: int, later: int)
    requires SaverGood(env, s, entries, now) && now <= later
    ensures SaverGood(env, s.(now := later), entries, later)
  {
    hide Keys.Key, EntryOk, P.Inv, P.Shape, RowsOk;
    ShapeOfInv(env.zone, s);
    P.AdvanceKeepsInv(env.zone, s, later);
    RowsLater(env, env, s.db, now, later);
    if s.phase.Writing? {
      RowsLater(env, env, s.phase.tx, now, later);
    }
    forall id | id in s.heap
      ensures EntryOk(env, s.heap[id].Key(), s.heap[id], later)
    {
      LaterIsOk(env, s.heap[id].Key(), s.heap[id], now, later);
    }
  }

  lemma RowsLater(env: Env, other: Env, db: Table, now: int, later: int)
    requires RowsOk(env, db, now) && now <= later && other.zone == env.zone
    ensures RowsOk(other, db, later)
  {
    hide Keys.Key, Keys.CanonicalName, Decode, HistoryInOrder;
    forall k | k in db
      ensures EntryOk(other, Keys.Key(k.name, k.qtype), Decode(env.zone, k, db[k]), later)
    {
      assert EntryOk(env, Keys.Key(k.name, k.qtype), Decode(env.zone, k, db[k]), now);
    }
  }

  lemma LookupKeeps(env: Env, loaded: map<string, Entry>, server: Server, s: P.State, key: string, id: nat)
    requires Consistent(env, loaded, server) && SaverGood(env, s, server.cache.entries, server.now)
    requires Enabled(env, server, Lookup(key)) && P.Shape(s)
    ensures SaverGood(env, Follow(env, server, s, Lookup(key), id), Apply(env, server, Lookup(key)).cache.entries,
                      server.now)
  {
    hide Keys.Key, EntryOk, TtlOk, SaverGood, UsageDays.Mark, GoodClock, Window.Record;
    var entries := server.cache.entries;
    if key in entries {
      var e := Asked(env.cfg, env.zone, entries[key], server.now);
      AskedIsOk(env, loaded, key, entries[key], server.now);
      KeyOfEntry(env, key, e, server.now);
      ChangeKeeps(env, s, entries, server.now, key, e);
    }
  }

  lemma StaleServeKeeps(env: Env, loaded: map<string, Entry>, server: Server, s: P.State, key: string, id: nat)
    requires Consistent(env, loaded, server) && SaverGood(env, s, server.cache.entries, server.now)
    requires Enabled(env, server, Stale(key)) && P.Shape(s)
    ensures SaverGood(env, Follow(env, server, s, Stale(key), id), Apply(env, server, Stale(key)).cache.entries,
                      server.now)
  {
    hide Keys.Key, EntryOk, TtlOk, SaverGood, GoodClock;
    var entries := server.cache.entries;
    if StaleHits(env.cfg, server.cache, key, server.now) {
      var e := GetStale(env.cfg, server.cache, key, server.now).entries[key];
      ServedStaleIsOk(env, loaded, key, entries[key], server.now);
      KeyOfEntry(env, key, e, server.now);
      ChangeKeeps(env, s, entries, server.now, key, e);
    }
  }

  lemma KeyOfEntry(env: Env, key: string, e: Entry, now: int)
    requires EntryOk(env, key, e, now)
    ensures e.Key() == key
  {
    hide Keys.Key, Keys.CanonicalName;
  }

  lemma SetKeepsSaver(env: Env, loaded: map<string, Entry>, server: Server, s: P.State, id: nat,
                      q: Question, resp: Msg, given: nat, victim: Option<string>)
    requires Consistent(env, loaded, server) && SaverGood(env, s, server.cache.entries, server.now)
    requires MayEvict(env.cfg, server.cache.entries, QKey(q), server.now, victim)
    requires !s.phase.Scanning? && id !in s.heap
    ensures P.Shape(s)
    ensures SaverGood(env, P.InstallIn(s, id, NewEntry(env.cfg, env.zone, q, resp, given, server.now), victim),
                      Set(env.cfg, env.zone, server.cache, q, resp, given, server.now, victim).entries, server.now)
  {
    hide Keys.Key, EntryOk, TtlOk, SaverGood, GoodClock, ClampTtl, OriginalTtl, UsageDays.Pack, Evicts, Insert;
    var e := NewEntry(env.cfg, env.zone, q, resp, given, server.now);
    NewEntryKey(env.cfg, env.zone, q, resp, given, server.now);
    SetKeeps(env, loaded, server.cache, q, resp, given, server.now, victim);
    InsertHas(server.cache.entries, e, victim);
    InstallKeeps(env, s, server.cache.entries, server.now, id, e, victim);
  }

  lemma InsertHas(entries: map<string, Entry>, e: Entry, victim: Option<string>)
    ensures e.Key() in Insert(entries, e, victim)
  {
    hide Keys.Key;
  }

  lemma FollowKeeps(env: Env, loaded: map<string, Entry>, server: Server, s: P.State, ev: Event, id: nat)
    requires Consistent(env, loaded, server) && SaverGood(env, s, server.cache.entries, server.now) && P.Shape(s)
    requires Enabled(env, server, ev) && id !in s.heap
    requires ev.Reply? || ev.Refreshed? || ev.Tick? ==> !s.phase.Scanning?
    ensures var after := Apply(env, server, ev);
            SaverGood(env, Follow(env, server, s, ev, id), after.cache.entries, after.now)
  {
    hide Keys.Key, EntryOk, TtlOk, SaverGood, GoodClock, NewEntry, CacheModel.Get, CacheModel.GetStale, CacheModel.Set,
         MayEvict, Picks, TickCandidates, Unused, P.InstallIn, P.Shape, Holds, NoteFailure, Asked, StaleHits;
    match ev
    case Advance(to) => TimeKeeps(env, s, server.cache.entries, server.now, to);
    case Lookup(key) => LookupKeeps(env, loaded, server, s, key, id);
    case Stale(key) => StaleServeKeeps(env, loaded, server, s, key, id);
    case Reply(q, resp, victim) => SetKeepsSaver(env, loaded, server, s, id, q, resp, AnswerTtl(resp), victim);
    case Refreshed(q, resp, victim) => SetKeepsSaver(env, loaded, server, s, id, q, resp, RefreshTtl(resp), victim);
    case Tick(_) => RemoveKeeps(env, s, server.cache.entries, server.now, Apply(env, server, ev).cache.entries);
    case _ =>
  }

  // ---------------------------------------------------------------------------
  // The rows keep up
  // ---------------------------------------------------------------------------

  lemma WrittenRowIsOk(env: Env, t: Table, now: int, e: Entry)
    requires GoodClock(env, now) && RowsOk(env, t, now) && EntryOk(env, e.Key(), e, now)
    ensures RowsOk(env, t[KeyOf(e) := Encode(e)], now)
  {
    hide Keys.Key, EntryOk, GoodClock, Encode, Decode;
    ReloadedIsOk(env, e.Key(), e, now);
    KeyOfOk(env, e.Key(), e, now);
  }

  lemma SaveStepKeeps(env: Env, s: P.State, entries: map<string, Entry>, now: int, step: P.Event)
    requires GoodClock(env, now) && SaverGood(env, s, entries, now) && P.Shape(s)
    requires IsSaveStep(step) && P.Enabled(env.zone, s, step)
    ensures SaverGood(env, P.Apply(env.cfg, env.zone, s, step), entries, now)
  {
    hide Keys.Key, EntryOk, GoodClock, P.Inv, P.Shape, Encode, P.Stamped, RowsOk, ObjectsOk, Holds;
    P.StepKeepsInv(env.cfg, env.zone, s, step);
    match step {
      case EndScan => NoRowsOk(env, now);
      case WriteOne =>
        var id := s.phase.batch[0];
        ObjectOk(env, s.heap, now, id);
        WrittenRowIsOk(env, s.phase.tx, now, s.heap[id]);
      case Commit => MergedRowsOk(env, s.db, s.phase.tx, now);
      case _ =>
    }
    SameHolds(s, P.Apply(env.cfg, env.zone, s, step), entries);
  }

  lemma SameHolds(s: P.State, s': P.State, entries: map<string, Entry>)
    requires Holds(s, entries) && s'.heap == s.heap && s'.index == s.index
    ensures Holds(s', entries)
  {
  }

  lemma NoRowsOk(env: Env, now: int)
    ensures RowsOk(env, map[], now)
  {
  }

  lemma ObjectOk(env: Env, heap: map<nat, Entry>, now: int, id: nat)
    requires ObjectsOk(env, heap, now) && id in heap
    ensures EntryOk(env, heap[id].Key(), heap[id], now)
  {
    hide EntryOk;
  }

  lemma MergedRowsOk(env: Env, t: Table, tx: Table, now: int)
    requires RowsOk(env, t, now) && RowsOk(env, tx, now)
    ensures RowsOk(env, t + tx, now)
  {
    hide EntryOk, Keys.Key, Decode;
  }

  // ---------------------------------------------------------------------------
  // Every life
  // ---------------------------------------------------------------------------

  lemma RestartKeepsGood(w: World, env: Env, now: int, damaged: set<RowKey>, entries: seq<Entry>,
                         heap: map<nat, Entry>, index: map<string, nat>)
    requires Good(w) && Coupled(w) && Possible(w, Restart(env, now, damaged, entries, heap, index))
    ensures Good(After(w, Restart(env, now, damaged, entries, heap, index)))
  {
    hide Keys.Key, EntryOk, TtlOk, GoodClock, Balanced, P.Inv, P.Shape, RowsOk, Loaded, Inv, Start, Loadable;
    var act := Restart(env, now, damaged, entries, heap, index);
    var after := After(w, act);
    RowsLater(w.env, env, w.saver.db, w.server.now, now);
    SomeRowsOk(env, w.saver.db, TableOf(w) - damaged, now);
    StartIsOk(env, TableOf(w) - damaged, now, entries);
    StartsWith(now, Loaded(entries));
    LoadedObjects(env, TableOf(w) - damaged, now, entries, heap);
    RestartedSaver(w, env, now, damaged, entries, heap, index);
  }

  lemma SomeRowsOk(env: Env, db: Table, some: Table, now: int)
    requires RowsOk(env, db, now) && some.Keys <= db.Keys && forall k :: k in some ==> some[k] == db[k]
    ensures RowsOk(env, some, now)
  {
    hide EntryOk, Keys.Key, Decode;
  }

  lemma StartsWith(now: int, entries: map<string, Entry>)
    ensures Start(now, entries).now == now && Start(now, entries).cache.entries == entries
  {
  }

  /** Each object is one of the entries read back. */
  lemma LoadedObjects(env: Env, db: Table, now: int, entries: seq<Entry>, heap: map<nat, Entry>)
    requires RowsOk(env, db, now) && Loads(env.zone, now, env.cfg.KeepWindow(), db, entries)
    requires forall id :: id in heap ==> heap[id] in entries
    ensures ObjectsOk(env, heap, now)
    ensures forall id :: id in heap ==>
              KeyOf(heap[id]) in db && heap[id] == Decode(env.zone, KeyOf(heap[id]), db[KeyOf(heap[id])])
  {
    hide Keys.Key, EntryOk, Loadable, Decode;
    forall id | id in heap
      ensures EntryOk(env, heap[id].Key(), heap[id], now)
      ensures KeyOf(heap[id]) in db && heap[id] == Decode(env.zone, KeyOf(heap[id]), db[KeyOf(heap[id])])
    {
      var i :| 0 <= i < |entries| && entries[i] == heap[id];
      var k := KeyOf(entries[i]);
      assert entries[i] == Decode(env.zone, k, db[k]) && entries[i].Key() == Keys.Key(k.name, k.qtype);
    }
  }

  lemma RestartedSaver(w: World, env: Env, now: int, damaged: set<RowKey>, entries: seq<Entry>,
                       heap: map<nat, Entry>, index: map<string, nat>)
    requires Good(w) && Coupled(w) && Possible(w, Restart(env, now, damaged, entries, heap, index))
    requires forall id :: id in heap ==>
               && KeyOf(heap[id]) in w.saver.db
               && heap[id] == Decode(env.zone, KeyOf(heap[id]), w.saver.db[KeyOf(heap[id])])
    ensures P.Inv(env.zone, After(w, Restart(env, now, damaged, entries, heap, index)).saver)
  {
    hide Keys.Key, EntryOk, TtlOk, GoodClock, Balanced, P.NothingLost, P.SaveInv, RowsOk, Inv, Start, Loads, Decode,
         ObjectsOk;
    var later := w.saver.(now := now);
    P.AdvanceKeepsInv(env.zone, w.saver, now);
    forall k | k in index
      ensures heap[index[k]].Key() == k
    {
      LoadedUnderOwnKey(entries, k);
    }
    P.RestartKeepsInv(env.cfg, env.zone, later, heap, index);
  }

  lemma {:induction false} LoadedUnderOwnKey(entries: seq<Entry>, k: string)
    requires k in Loaded(entries)
    ensures Loaded(entries)[k].Key() == k
  {
    hide Keys.Key;
    if entries[|entries| - 1].Key() != k {
      LoadedUnderOwnKey(entries[..|entries| - 1], k);
    }
  }

  lemma ServeKeepsGood(w: World, ev: Event, id: nat)
    requires Good(w) && Coupled(w) && Possible(w, Serve(ev, id))
    ensures Good(After(w, Serve(ev, id)))
  {
    hide Keys.Key, EntryOk, TtlOk, GoodClock, Balanced, SaverGood, Follow, Apply, Enabled, P.Shape, Capacity;
    StepKeepsInv(w.env, w.loaded, w.server, ev);
    StepKeepsBalance(w.env, w.server, ev);
    FollowKeeps(w.env, w.loaded, w.server, w.saver, ev, id);
  }

  lemma ActKeepsGood(w: World, act: Act)
    requires Good(w) && Coupled(w) && Possible(w, act)
    ensures Good(After(w, act)) && Coupled(After(w, act))
  {
    hide Keys.Key, EntryOk, TtlOk, GoodClock, Balanced, SaverGood, Follow, Apply, Enabled, P.Shape, P.Enabled, Capacity,
         P.Apply;
    match act {
      case Serve(ev, id) => ServeKeepsGood(w, ev, id);
      case Save(step) => SaveStepKeeps(w.env, w.saver, w.server.cache.entries, w.server.now, step);
      case Clean(_) =>
      case Restart(env, now, damaged, entries, heap, index) =>
        RestartKeepsGood(w, env, now, damaged, entries, heap, index);
    }
    GoodIsCoupled(After(w, act));
  }

  ghost predicate Life(w: World, acts: seq<Act>)
    decreases |acts|
  {
    && Coupled(w)
    && (acts == [] || (Possible(w, acts[0]) && Life(After(w, acts[0]), acts[1..])))
  }

  ghost function End(w: World, acts: seq<Act>): (end: World)
    requires Life(w, acts)
    ensures Coupled(end)
    decreases |acts|
  {
    if acts == [] then w else End(After(w, acts[0]), acts[1..])
  }

  lemma {:induction false} LifeKeepsGood(w: World, acts: seq<Act>)
    requires Good(w) && Life(w, acts)
    ensures Good(End(w, acts)) && Coupled(End(w, acts))
    decreases |acts|
  {
    hide Good, Possible, After, Coupled;
    if acts != [] {
      ActKeepsGood(w, acts[0]);
      LifeKeepsGood(After(w, acts[0]), acts[1..]);
    }
  }

  /** A server with nothing cached and nothing saved. */
  function Birth(env: Env, now: int): World
  {
    World(env, Start(now, map[]), map[], P.Unloaded(map[], now), {})
  }

  lemma BirthIsGood(env: Env, now: int)
    requires env.Valid() && GoodClock(env, now)
    ensures Good(Birth(env, now))
  {
    hide GoodClock;
    P.UnloadedIsInv(env.zone, map[], now);
  }

  /** From an empty database, whatever sequence of events, row-by-row saves, cleanups and restarts follows: the
      cache's invariants hold, the counters balance, every row is in order, and each entry matches its row or
      is stamped since the last save. */
  lemma EveryLifeIsGood(env: Env, now: int, acts: seq<Act>)
    requires env.Valid() && GoodClock(env, now) && Life(Birth(env, now), acts)
    ensures var end := End(Birth(env, now), acts);
            && Inv(end.env, end.loaded, end.server) && Balanced(end.server)
            && RowsOk(end.env, TableOf(end), end.server.now)
            && P.Shape(end.saver) && Holds(end.saver, end.server.cache.entries)
            && P.NothingLost(end.env.zone, end.saver)
  {
    hide Life, End, GoodClock, Birth, Inv, Balanced, RowsOk, P.NothingLost, P.SaveInv, P.Shape;
    BirthIsGood(env, now);
    LifeKeepsGood(Birth(env, now), acts);
    var end := End(Birth(env, now), acts);
    SomeRowsOk(end.env, end.saver.db, TableOf(end), end.server.now);
  }

  /** At this restart: nothing changed k's entry since the last successful save, its row is still there and
      readable, and it is usual. */
  ghost predicate SettledAndUsual(w: World, act: Act, k: string)
    requires Coupled(w) && Possible(w, act) && act.Restart?
  {
    && k in w.server.cache.entries
    && var e := w.server.cache.entries[k];
    && !P.Stamped(e, w.saver.lastSave)
    && KeyOf(e) !in w.cleaned + act.damaged
    && act.env.cfg.Usual(e, act.now, act.env.zone) && e.lastHitAt != 0
  }

  /** k is cached again, as saving and loading leave its entry, with its history. */
  ghost predicate ComesBack(w: World, act: Act, k: string)
    requires Coupled(w) && Possible(w, act) && act.Restart? && k in w.server.cache.entries
  {
    var e := w.server.cache.entries[k];
    var again := After(w, act).server.cache.entries;
    && k in again && again[k] == Reloaded(act.env.zone, e) && act.env.cfg.Usual(again[k], act.now, act.env.zone)
    && again[k].hitCount == e.hitCount && again[k].lastHitAt == e.lastHitAt && again[k].usedDays == e.usedDays
  }

  /** The restart at the end of any life, with whatever rows cleaned up or damaged: an entry that nothing
      changed since the last successful save and that is usual at the restart is cached again under its key,
      with its hits, last request and usage days. */
  lemma RestartLosesNoUsual(env: Env, now: int, acts: seq<Act>, act: Act, k: string)
    requires env.Valid() && GoodClock(env, now) && Life(Birth(env, now), acts)
    requires Possible(End(Birth(env, now), acts), act) && act.Restart?
    requires SettledAndUsual(End(Birth(env, now), acts), act, k)
    ensures ComesBack(End(Birth(env, now), acts), act, k)
  {
    hide Life, End, GoodClock, Birth, SettledAndUsual, ComesBack, Possible, Good, Coupled;
    BirthIsGood(env, now);
    LifeKeepsGood(Birth(env, now), acts);
    RestartLoads(End(Birth(env, now), acts), act, k);
  }

  lemma RestartLoads(w: World, act: Act, k: string)
    requires Good(w) && Coupled(w) && Possible(w, act) && act.Restart? && SettledAndUsual(w, act, k)
    ensures ComesBack(w, act, k)
  {
    hide Keys.Key, TtlOk, GoodClock, Balanced, P.SaveInv, P.Stamped, RowsOk, ObjectsOk, Loaded, Loads, Decode, Encode,
         UsageDays.DaysUsed, UsageDays.LastDay, Loadable, EntryOk, Start;
    var e := w.server.cache.entries[k];
    var db := TableOf(w) - act.damaged;
    OkEntry(w.env, k, e, w.server.now);
    assert P.InSync(w.env.zone, w.saver.db, P.Live(w.saver, k));
    InSyncHere(w.env.zone, w.saver.db, db, e);
    RestartBringsBackUsual(act.env.cfg, act.env.zone, db, e, act.now, act.entries);
    RowsLater(w.env, act.env, w.saver.db, w.server.now, act.now);
    SomeRowsOk(act.env, w.saver.db, db, act.now);
    var i :| 0 <= i < |act.entries| && act.entries[i] == Reloaded(act.env.zone, e);
    LoadedKeepsEach(act.env, db, act.now, act.entries, i);
    StartsWith(act.now, Loaded(act.entries));
  }

  lemma OkEntry(env: Env, key: string, e: Entry, now: int)
    requires EntryOk(env, key, e, now)
    ensures HistoryInOrder(e, env.zone) && e.Key() == key
  {
    hide Keys.Key, Keys.CanonicalName, UsageDays.LastDay;
  }

  lemma InSyncHere(zone: int, t: Table, some: Table, e: Entry)
    requires P.InSync(zone, t, e) && KeyOf(e) in some && some[KeyOf(e)] == t[KeyOf(e)]
    ensures P.InSync(zone, some, e)
  {
    hide Decode;
  }
}
