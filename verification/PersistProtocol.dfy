/** The incremental save of persistLoop (main.go) and SaveBatch (persistence.go), interleaved with client
    requests and insertions, with failures and with restarts. Entries are objects on a heap: the map and
    the batch being saved point to the same ones, and an insertion replaces the object. */
module PersistProtocol {
  import opened CacheModel
  import opened Entries
  import opened Options
  import opened RefreshModel
  import opened Rows
  import Keys
  import UsageDays

  datatype Phase =
    | Idle
    | Scanning(start: int, todo: set<string>, batch: seq<nat>)
    | Writing(start: int, batch: seq<nat>, tx: Table)

  datatype State = State(now: int, heap: map<nat, Entry>, index: map<string, nat>, db: Table, lastSave: int,
                         phase: Phase)

  datatype Event =
    | Advance(to: int)
    | Ask(key: string, at: int)
    | ServeStale(key: string, at: int)
    | Install(id: nat, e: Entry, victim: Option<string>)
    | Remove(key: string)
    | StartScan
    | ScanOne(key: string)
    | EndScan
    | WriteOne
    | Commit
    | SaveFails
    | Restart(heap: map<nat, Entry>, index: map<string, nat>)

  function Live(s: State, key: string): Entry
    requires key in s.index && s.index[key] in s.heap
  {
    s.heap[s.index[key]]
  }

  /** The dirty test of persistLoop. */
  predicate Stamped(e: Entry, since: int)
  {
    e.storedAt >= since || e.lastHitAt >= since
  }

  /** A restart from the database would give back exactly what a save now and a restart would. */
  predicate InSync(zone: int, db: Table, e: Entry)
  {
    KeyOf(e) in db && Decode(zone, KeyOf(e), db[KeyOf(e)]) == Reloaded(zone, e)
  }

  /** The reference point of the save in progress, or of the last save. */
  function Floor(s: State): int
  {
    if s.phase.Idle? then s.lastSave else s.phase.start
  }

  /** The save in progress has still to read the entry of this key, and no older object of the key. */
  ghost predicate StillToRead(s: State, key: string)
    requires key in s.index && !s.phase.Idle?
  {
    && ((s.phase.Scanning? && key in s.phase.todo) || s.index[key] in s.phase.batch)
    && forall id :: id in s.phase.batch && id in s.heap && s.heap[id].Key() == key ==> id == s.index[key]
  }

  /** The oldest stamp that still marks a change of this entry as unsaved. */
  ghost function FloorOf(s: State, key: string): int
    requires key in s.index
  {
    if s.phase.Idle? || StillToRead(s, key) then s.lastSave else s.phase.start
  }

  /** The object an insertion of e puts in the map. */
  function Installed(s: State, e: Entry): Entry
    requires e.Key() in s.index ==> s.index[e.Key()] in s.heap
  {
    if e.Key() in s.index then e.Inheriting(Live(s, e.Key())) else e
  }

  ghost predicate Shape(s: State)
  {
    forall k :: k in s.index ==> s.index[k] in s.heap && Live(s, k).Key() == k
  }

  /** A change must be stamped no earlier than its floor, by its own clock read or by the fetch of the entry
      it changes; ChangeNeedsFreshStamp and InstallNeedsFreshStamp say that less would lose it.
      The map is locked for reading while the scan runs, so insertions and removals wait; requests do
      not. */
  ghost predicate Enabled(zone: int, s: State, ev: Event)
    requires Shape(s)
  {
    match ev
    case Advance(to) => s.now <= to
    case Ask(key, at) =>
      key in s.index && at <= s.now && Stamped(Live(s, key).(lastHitAt := at), FloorOf(s, key))
    case ServeStale(key, at) =>
      key in s.index && at <= s.now && Stamped(Live(s, key).(lastHitAt := at), FloorOf(s, key))
    case Install(id, e, victim) =>
      && !s.phase.Scanning? && id !in s.heap && e.storedAt <= s.now && Stamped(Installed(s, e), Floor(s))
      && (e.Key() in s.index ==> victim == None)
    case Remove(_) => !s.phase.Scanning?
    case StartScan => s.phase.Idle?
    case ScanOne(key) => s.phase.Scanning? && key in s.phase.todo && key in s.index
    case EndScan => s.phase.Scanning? && s.phase.todo == {}
    case WriteOne => s.phase.Writing? && s.phase.batch != [] && s.phase.batch[0] in s.heap
    case Commit => s.phase.Writing? && s.phase.batch == []
    case SaveFails => s.phase.Writing?
    case Restart(heap, index) =>
      forall k :: k in index ==>
        && index[k] in heap && heap[index[k]].Key() == k
        && KeyOf(heap[index[k]]) in s.db
        && heap[index[k]] == Decode(zone, KeyOf(heap[index[k]]), s.db[KeyOf(heap[index[k]])])
  }

  /** Insert of CacheModel, by object. */
  function InstallIn(s: State, id: nat, e: Entry, victim: Option<string>): State
    requires e.Key() in s.index ==> s.index[e.Key()] in s.heap
  {
    var stored := Installed(s, e);
    var kept := match victim case Some(k) => s.index - {k} case None => s.index;
    s.(heap := s.heap[id := stored], index := kept[e.Key() := id])
  }

  function Apply(cfg: Config, zone: int, s: State, ev: Event): State
    requires Shape(s) && Enabled(zone, s, ev)
  {
    match ev
    case Advance(to) => s.(now := to)
    case Ask(key, at) => s.(heap := s.heap[s.index[key] := Asked(cfg, zone, Live(s, key), at)])
    case ServeStale(key, at) =>
      var e := Live(s, key);
      s.(heap := s.heap[s.index[key] := e.(hitCount := e.hitCount + 1, lastHitAt := at)])
    case Install(id, e, victim) => InstallIn(s, id, e, victim)
    case Remove(key) => s.(index := s.index - {key})
    case StartScan => s.(phase := Scanning(s.now, s.index.Keys, []))
    case ScanOne(key) =>
      var p := s.phase;
      s.(phase := Scanning(p.start, p.todo - {key},
                           if Stamped(Live(s, key), s.lastSave) then p.batch + [s.index[key]] else p.batch))
    case EndScan => s.(phase := Writing(s.phase.start, s.phase.batch, map[]))
    case WriteOne =>
      var e := s.heap[s.phase.batch[0]];
      s.(phase := Writing(s.phase.start, s.phase.batch[1..], s.phase.tx[KeyOf(e) := Encode(e)]))
    case Commit => s.(db := s.db + s.phase.tx, lastSave := s.phase.start, phase := Idle)
    case SaveFails => s.(phase := Idle)
    case Restart(heap, index) => s.(heap := heap, index := index, lastSave := s.now, phase := Idle)
  }

  // ---------------------------------------------------------------------------
  // The invariant
  // ---------------------------------------------------------------------------

  /** No change is lost: every cached entry matches its row or is stamped since the last save. */
  ghost predicate NothingLost(zone: int, s: State)
    requires Shape(s)
  {
    forall k :: k in s.index ==> Stamped(Live(s, k), s.lastSave) || InSync(zone, s.db, Live(s, k))
  }

  /** An object of the batch: it was dirty, and if the map no longer holds it under its key the one that
      replaced it is stamped since the save began. */
  predicate Pending(s: State, start: int, id: nat)
  {
    && id in s.heap && Stamped(s.heap[id], s.lastSave)
    && var k := s.heap[id].Key();
       k in s.index && s.index[k] != id ==> s.index[k] in s.heap && Stamped(Live(s, k), start)
  }

  /** What the save in progress will leave for k. */
  predicate Covered(zone: int, s: State, start: int, batch: seq<nat>, tx: Table, k: string)
    requires k in s.index && s.index[k] in s.heap
  {
    var e := Live(s, k);
    || Stamped(e, start)
    || s.index[k] in batch
    || (if KeyOf(e) in tx then InSync(zone, tx, e) else InSync(zone, s.db, e))
  }

  ghost predicate SaveInv(zone: int, s: State)
    requires Shape(s)
  {
    match s.phase
    case Idle => s.lastSave <= s.now
    case Scanning(start, todo, batch) =>
      && s.lastSave <= start <= s.now
      && (forall id :: id in batch ==> Pending(s, start, id))
      && (forall k :: k in s.index && k !in todo ==> Covered(zone, s, start, batch, map[], k))
    case Writing(start, batch, tx) =>
      && s.lastSave <= start <= s.now
      && (forall id :: id in batch ==> Pending(s, start, id))
      && (forall k :: k in s.index ==> Covered(zone, s, start, batch, tx, k))
  }

  ghost predicate Inv(zone: int, s: State)
  {
    Shape(s) && NothingLost(zone, s) && SaveInv(zone, s)
  }

  /** A fresh start: the entries loaded from the database are in sync as they are. */
  lemma LoadedIsInSync(zone: int, db: Table, e: Entry)
    requires KeyOf(e) in db && e == Decode(zone, KeyOf(e), db[KeyOf(e)])
    ensures InSync(zone, db, e)
  {
    SecondReloadIsIdentity(zone, KeyOf(e), db[KeyOf(e)]);
  }

  lemma WrittenIsInSync(zone: int, tx: Table, e: Entry)
    ensures InSync(zone, tx[KeyOf(e) := Encode(e)], e)
  {
  }

  // ---------------------------------------------------------------------------
  // Step by step
  // ---------------------------------------------------------------------------

  /** A request changes an object the map holds and stamps it. */
  lemma ChangeKeepsInv(zone: int, s: State, key: string, e: Entry)
    requires Inv(zone, s) && key in s.index
    requires e.Key() == key && e.storedAt == Live(s, key).storedAt && Stamped(e, FloorOf(s, key))
    ensures Inv(zone, s.(heap := s.heap[s.index[key] := e]))
  {
    hide Keys.Key, InSync;
    var s' := s.(heap := s.heap[s.index[key] := e]);
    forall k | k in s'.index
      ensures s'.index[k] in s'.heap && Live(s', k).Key() == k
      ensures Live(s', k) == if k == key then e else Live(s, k)
    {
    }
    if !s.phase.Idle? {
      forall id | id in s.phase.batch
        ensures Pending(s', s.phase.start, id)
      {
        assert Pending(s, s.phase.start, id);
      }
    }
  }

  /** An insertion puts a new object in the map, stamped with its clock read. */
  lemma InstallKeepsInv(zone: int, s: State, id: nat, e: Entry, victim: Option<string>)
    requires Inv(zone, s) && Enabled(zone, s, Install(id, e, victim))
    ensures Inv(zone, InstallIn(s, id, e, victim))
  {
    hide Keys.Key, InSync;
    var s' := InstallIn(s, id, e, victim);
    forall k | k in s'.index
      ensures s'.index[k] in s'.heap && Live(s', k).Key() == k
      ensures k == e.Key() ==> Live(s', k) == Installed(s, e)
      ensures k != e.Key() ==> k in s.index && s'.index[k] == s.index[k] && Live(s', k) == Live(s, k)
    {
      if e.Key() in s.index && k == e.Key() {
        assert e.Inheriting(Live(s, k)).Key() == e.Key();
      }
    }
    if s.phase.Writing? {
      forall b | b in s.phase.batch
        ensures Pending(s', s.phase.start, b)
      {
        assert Pending(s, s.phase.start, b);
      }
    }
  }

  lemma RemoveKeepsInv(zone: int, s: State, keys: set<string>)
    requires Inv(zone, s) && !s.phase.Scanning?
    ensures Inv(zone, s.(index := s.index - keys))
  {
    hide Keys.Key, InSync;
    var s' := s.(index := s.index - keys);
    if s.phase.Writing? {
      forall b | b in s.phase.batch
        ensures Pending(s', s.phase.start, b)
      {
        assert Pending(s, s.phase.start, b);
      }
    }
  }

  lemma ScanKeepsInv(cfg: Config, zone: int, s: State, key: string)
    requires Inv(zone, s) && Enabled(zone, s, ScanOne(key))
    ensures Inv(zone, Apply(cfg, zone, s, ScanOne(key)))
  {
    hide Keys.Key, InSync;
    var s' := Apply(cfg, zone, s, ScanOne(key));
    forall b | b in s'.phase.batch
      ensures Pending(s', s.phase.start, b)
    {
      if b in s.phase.batch {
        assert Pending(s, s.phase.start, b);
      } else {
        assert b == s.index[key];
      }
    }
    forall k | k in s'.index && k !in s'.phase.todo
      ensures Covered(zone, s', s.phase.start, s'.phase.batch, map[], k)
    {
      if k != key {
        assert Covered(zone, s, s.phase.start, s.phase.batch, map[], k);
      }
    }
  }

  /** The rows of a batch: writing one object settles its key, and no other key that still needs its row. */
  lemma WriteKeepsInv(cfg: Config, zone: int, s: State)
    requires Inv(zone, s) && Enabled(zone, s, WriteOne)
    ensures Inv(zone, Apply(cfg, zone, s, WriteOne))
  {
    hide Keys.Key, InSync;
    var s' := Apply(cfg, zone, s, WriteOne);
    var b := s.phase.batch[0];
    var written := s.heap[b];
    assert Pending(s, s.phase.start, b);
    WrittenIsInSync(zone, s.phase.tx, written);
    forall k | k in s'.index
      ensures Covered(zone, s', s.phase.start, s'.phase.batch, s'.phase.tx, k)
    {
      assert Covered(zone, s, s.phase.start, s.phase.batch, s.phase.tx, k);
      var e := Live(s, k);
      if KeyOf(e) == KeyOf(written) {
        assert written.Key() == e.Key();
      } else {
        SameRow(zone, s.phase.tx, s'.phase.tx, e);
      }
    }
    forall id | id in s'.phase.batch
      ensures Pending(s', s.phase.start, id)
    {
      assert Pending(s, s.phase.start, id);
    }
  }

  lemma SameRow(zone: int, t: Table, t': Table, e: Entry)
    requires KeyOf(e) in t <==> KeyOf(e) in t'
    requires KeyOf(e) in t ==> t[KeyOf(e)] == t'[KeyOf(e)]
    ensures InSync(zone, t, e) == InSync(zone, t', e)
  {
  }

  lemma CommitKeepsInv(cfg: Config, zone: int, s: State)
    requires Inv(zone, s) && Enabled(zone, s, Commit)
    ensures Inv(zone, Apply(cfg, zone, s, Commit))
  {
    hide Keys.Key, InSync;
    var s' := Apply(cfg, zone, s, Commit);
    forall k | k in s.index
      ensures Stamped(Live(s', k), s'.lastSave) || InSync(zone, s'.db, Live(s', k))
    {
      var e := Live(s, k);
      assert Covered(zone, s, s.phase.start, s.phase.batch, s.phase.tx, k);
      if KeyOf(e) in s.phase.tx {
        SameRow(zone, s.phase.tx, s'.db, e);
      } else {
        SameRow(zone, s.db, s'.db, e);
      }
    }
  }

  lemma StepKeepsInv(cfg: Config, zone: int, s: State, ev: Event)
    requires Inv(zone, s) && Enabled(zone, s, ev)
    ensures Inv(zone, Apply(cfg, zone, s, ev))
  {
    hide Keys.Key, InSync, UsageDays.Mark, SaveInv, NothingLost;
    match ev
    case Ask(key, at) => ChangeKeepsInv(zone, s, key, Asked(cfg, zone, Live(s, key), at));
    case ServeStale(key, at) =>
      var e := Live(s, key);
      ChangeKeepsInv(zone, s, key, e.(hitCount := e.hitCount + 1, lastHitAt := at));
    case Install(id, e, victim) => InstallKeepsInv(zone, s, id, e, victim);
    case Remove(key) => RemoveKeepsInv(zone, s, {key});
    case ScanOne(key) => ScanKeepsInv(cfg, zone, s, key);
    case WriteOne => WriteKeepsInv(cfg, zone, s);
    case Commit => CommitKeepsInv(cfg, zone, s);
    case Restart(heap, index) => RestartKeepsInv(cfg, zone, s, heap, index);
    case _ => OtherStepsKeepInv(cfg, zone, s, ev);
  }

  lemma OtherStepsKeepInv(cfg: Config, zone: int, s: State, ev: Event)
    requires Inv(zone, s) && Enabled(zone, s, ev)
    requires ev.Advance? || ev.StartScan? || ev.EndScan? || ev.SaveFails?
    ensures Inv(zone, Apply(cfg, zone, s, ev))
  {
    hide Keys.Key, InSync;
    var s' := Apply(cfg, zone, s, ev);
    if ev.Advance? || ev.EndScan? {
      if !s.phase.Idle? {
        forall id | id in s.phase.batch
          ensures Pending(s', s.phase.start, id)
        {
          assert Pending(s, s.phase.start, id);
        }
        forall k | k in s.index && (s.phase.Scanning? ==> k !in s.phase.todo)
          ensures Covered(zone, s', s.phase.start, s.phase.batch, if s.phase.Scanning? then map[] else s.phase.tx, k)
        {
          assert Covered(zone, s, s.phase.start, s.phase.batch, if s.phase.Scanning? then map[] else s.phase.tx, k);
        }
      }
    }
  }

  lemma AdvanceKeepsInv(zone: int, s: State, to: int)
    requires Inv(zone, s) && s.now <= to
    ensures Inv(zone, s.(now := to))
  {
    hide Keys.Key;
    var cfg := Config(0, 0, 0, false, 0, 1, 1);
    OtherStepsKeepInv(cfg, zone, s, Advance(to));
  }

  lemma RestartKeepsInv(cfg: Config, zone: int, s: State, heap: map<nat, Entry>, index: map<string, nat>)
    requires Inv(zone, s) && Enabled(zone, s, Restart(heap, index))
    ensures Inv(zone, Apply(cfg, zone, s, Restart(heap, index)))
  {
    hide Keys.Key, InSync, Decode;
    var s' := Apply(cfg, zone, s, Restart(heap, index));
    forall k | k in index
      ensures InSync(zone, s'.db, Live(s', k))
    {
      LoadedIsInSync(zone, s.db, heap[index[k]]);
    }
  }

  // ---------------------------------------------------------------------------
  // Over all runs
  // ---------------------------------------------------------------------------

  ghost predicate Legal(cfg: Config, zone: int, s: State, run: seq<Event>)
    decreases |run|
  {
    && Shape(s)
    && (run == [] || (Enabled(zone, s, run[0]) && Legal(cfg, zone, Apply(cfg, zone, s, run[0]), run[1..])))
  }

  ghost function Exec(cfg: Config, zone: int, s: State, run: seq<Event>): State
    requires Legal(cfg, zone, s, run)
    decreases |run|
  {
    if run == [] then s else Exec(cfg, zone, Apply(cfg, zone, s, run[0]), run[1..])
  }

  /** One run after another. */
  lemma {:induction false} RunAfterRun(cfg: Config, zone: int, s: State, first: seq<Event>, second: seq<Event>)
    requires Legal(cfg, zone, s, first) && Legal(cfg, zone, Exec(cfg, zone, s, first), second)
    ensures Legal(cfg, zone, s, first + second)
    ensures Exec(cfg, zone, s, first + second) == Exec(cfg, zone, Exec(cfg, zone, s, first), second)
    decreases |first|
  {
    hide Shape, Enabled, Apply;
    if first == [] {
      assert first + second == second;
    } else {
      assert (first + second)[1..] == first[1..] + second;
      RunAfterRun(cfg, zone, Apply(cfg, zone, s, first[0]), first[1..], second);
    }
  }

  /** Where runs start: nothing is cached. A Restart then loads whatever rows there are. */
  function Unloaded(db: Table, now: int): State
  {
    State.State(now, map[], map[], db, now, Idle)
  }

  lemma UnloadedIsInv(zone: int, db: Table, now: int)
    ensures Inv(zone, Unloaded(db, now))
  {
  }

  /** No lost save: over every interleaving of requests, insertions, removals, scans, row writes, commits,
      failed saves and restarts, each cached entry matches its row or is stamped since the last save, so
      the next scan takes it. */
  lemma {:induction false} NoChangeIsLost(cfg: Config, zone: int, s: State, run: seq<Event>)
    requires Inv(zone, s) && Legal(cfg, zone, s, run)
    ensures Inv(zone, Exec(cfg, zone, s, run)) && NothingLost(zone, Exec(cfg, zone, s, run))
    decreases |run|
  {
    hide Enabled, Apply, Shape, SaveInv;
    if run != [] {
      StepKeepsInv(cfg, zone, s, run[0]);
      NoChangeIsLost(cfg, zone, Apply(cfg, zone, s, run[0]), run[1..]);
    }
  }

  /** The commit loses nothing exactly when the save covers every entry: SaveInv asks no more than it
      must. */
  lemma CommitNeedsCoverage(cfg: Config, zone: int, s: State)
    requires Shape(s) && s.phase.Writing? && s.phase.batch == []
    ensures Shape(Apply(cfg, zone, s, Commit))
    ensures NothingLost(zone, Apply(cfg, zone, s, Commit))
            <==> forall k :: k in s.index ==> Covered(zone, s, s.phase.start, s.phase.batch, s.phase.tx, k)
  {
    hide Keys.Key, InSync;
    var s' := Apply(cfg, zone, s, Commit);
    forall k | k in s.index
      ensures (Stamped(Live(s', k), s'.lastSave) || InSync(zone, s'.db, Live(s', k)))
              <==> Covered(zone, s, s.phase.start, s.phase.batch, s.phase.tx, k)
    {
      var e := Live(s, k);
      if KeyOf(e) in s.phase.tx {
        SameRow(zone, s.phase.tx, s'.db, e);
      } else {
        SameRow(zone, s.db, s'.db, e);
      }
    }
  }

  /** No row, saved or about to be, matches the entry. */
  predicate Unsaved(zone: int, s: State, e: Entry)
  {
    !InSync(zone, s.db, e) && (s.phase.Writing? ==> !InSync(zone, s.phase.tx, e))
  }

  /** A request, at any moment of the protocol, that leaves an entry no row matches is kept exactly when the
      entry is stamped since the last save, or, once the save in progress is past it, since that save
      began. */
  lemma ChangeNeedsFreshStamp(zone: int, s: State, key: string, e: Entry)
    requires Inv(zone, s) && key in s.index
    requires e.Key() == key && e.storedAt == Live(s, key).storedAt && Unsaved(zone, s, e)
    ensures Inv(zone, s.(heap := s.heap[s.index[key] := e])) <==> Stamped(e, FloorOf(s, key))
  {
    hide Keys.Key, InSync, Stamped;
    if Stamped(e, FloorOf(s, key)) {
      ChangeKeepsInv(zone, s, key, e);
    } else {
      ChangeIsLost(zone, s, key, e);
    }
  }

  lemma ChangeIsLost(zone: int, s: State, key: string, e: Entry)
    requires Inv(zone, s) && key in s.index
    requires e.Key() == key && Unsaved(zone, s, e) && !Stamped(e, FloorOf(s, key))
    ensures !Inv(zone, s.(heap := s.heap[s.index[key] := e]))
  {
    hide Keys.Key, InSync;
    var s' := s.(heap := s.heap[s.index[key] := e]);
    assert Live(s', key) == e;
    if !s.phase.Idle? && !StillToRead(s, key) {
      if id :| id in s.phase.batch && id in s.heap && s.heap[id].Key() == key && id != s.index[key] {
        assert !Pending(s', s.phase.start, id);
      } else {
        assert !Covered(zone, s', s.phase.start, s.phase.batch, if s.phase.Scanning? then map[] else s.phase.tx, key);
      }
    }
  }

  /** An insertion that no row matches is kept exactly when what it puts in the map, which has the last request
      of an entry it replaces, is stamped since the last save, or since the save in progress began. */
  lemma InstallNeedsFreshStamp(zone: int, s: State, id: nat, e: Entry, victim: Option<string>)
    requires Inv(zone, s) && !s.phase.Scanning? && id !in s.heap && e.storedAt <= s.now
    requires e.Key() in s.index ==> victim == None
    requires Unsaved(zone, s, Installed(s, e))
    ensures Inv(zone, InstallIn(s, id, e, victim)) <==> Stamped(Installed(s, e), Floor(s))
  {
    hide Keys.Key, InSync, Stamped;
    if Stamped(Installed(s, e), Floor(s)) {
      InstallKeepsInv(zone, s, id, e, victim);
    } else {
      InstallIsLost(zone, s, id, e, victim);
    }
  }

  lemma InstallIsLost(zone: int, s: State, id: nat, e: Entry, victim: Option<string>)
    requires Inv(zone, s) && !s.phase.Scanning? && id !in s.heap
    requires Unsaved(zone, s, Installed(s, e)) && !Stamped(Installed(s, e), Floor(s))
    ensures !Inv(zone, InstallIn(s, id, e, victim))
  {
    hide Keys.Key, InSync;
    var s' := InstallIn(s, id, e, victim);
    assert s'.index[e.Key()] == id && s'.heap[id] == Installed(s, e);
    if s.phase.Writing? {
      assert forall b :: b in s.phase.batch ==> Pending(s, s.phase.start, b);
      assert id !in s.phase.batch;
      assert !Covered(zone, s', s.phase.start, s.phase.batch, s.phase.tx, e.Key());
    }
  }
}
