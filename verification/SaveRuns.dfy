/** A round of the save loop is a run of the save protocol in which nothing else happens: what is proved of
    all runs of the protocol holds of the loop's rounds. */
module SaveRuns {
  import opened Entries
  import opened PersistProtocol
  import opened Persisting
  import opened Rows
  import Keys
  import Sets

  /** What the map holds, by value. */
  ghost function EntriesOf(s: State): (entries: map<string, Entry>)
    requires Shape(s)
    ensures entries.Keys == s.index.Keys && Filed(entries)
  {
    hide Keys.Key;
    map k | k in s.index :: Live(s, k)
  }

  function ObjectsOf(heap: map<nat, Entry>, batch: seq<nat>): (objects: seq<Entry>)
    requires forall id :: id in batch ==> id in heap
    ensures |objects| == |batch|
  {
    seq(|batch|, i requires 0 <= i < |batch| => heap[batch[i]])
  }

  // ---------------------------------------------------------------------------
  // The scan
  // ---------------------------------------------------------------------------

  /** The scan of the keys in `order`, with some keys already done, ends with the changed entries. */
  lemma {:induction false} ScanRun(cfg: Config, zone: int, s: State, order: seq<string>, done: set<string>)
    returns (run: seq<Event>, batch: seq<nat>)
    requires Shape(s) && s.phase.Scanning? && s.phase.todo == Sets.Elements(order) && done !! s.phase.todo
    requires done + s.phase.todo == s.index.Keys
    requires forall i, j :: 0 <= i < j < |order| ==> order[i] != order[j]
    requires forall id :: id in s.phase.batch ==> id in s.heap
    requires Changed(EntriesOf(s), s.lastSave, done, ObjectsOf(s.heap, s.phase.batch))
    ensures forall id :: id in batch ==> id in s.heap
    ensures Changed(EntriesOf(s), s.lastSave, s.index.Keys, ObjectsOf(s.heap, batch))
    ensures Legal(cfg, zone, s, run)
    ensures Exec(cfg, zone, s, run) == s.(phase := Scanning(s.phase.start, {}, batch))
    decreases |order|
  {
    hide Keys.Key, Changed, Stamped, Filed;
    if order == [] {
      run, batch := [], s.phase.batch;
      assert done == s.index.Keys;
    } else {
      var key := order[0];
      assert key in s.phase.todo;
      var next := Apply(cfg, zone, s, ScanOne(key));
      RestOfOrder(order);
      ScanOneChanged(cfg, zone, s, key, done);
      assert next.heap == s.heap && next.index == s.index && next.lastSave == s.lastSave;
      var rest;
      rest, batch := ScanRun(cfg, zone, next, order[1..], done + {key});
      run := [ScanOne(key)] + rest;
      assert run[1..] == rest;
    }
  }

  lemma RestOfOrder(order: seq<string>)
    requires order != [] && forall i, j :: 0 <= i < j < |order| ==> order[i] != order[j]
    ensures Sets.Elements(order[1..]) == Sets.Elements(order) - {order[0]}
  {
    assert order == [order[0]] + order[1..];
  }

  lemma ScanOneChanged(cfg: Config, zone: int, s: State, key: string, done: set<string>)
    requires Shape(s) && s.phase.Scanning? && key in s.phase.todo && key in s.index && key !in done
    requires forall id :: id in s.phase.batch ==> id in s.heap
    requires Changed(EntriesOf(s), s.lastSave, done, ObjectsOf(s.heap, s.phase.batch))
    ensures var next := Apply(cfg, zone, s, ScanOne(key));
            && Shape(next) && EntriesOf(next) == EntriesOf(s)
            && (forall id :: id in next.phase.batch ==> id in s.heap)
            && Changed(EntriesOf(s), s.lastSave, done + {key}, ObjectsOf(s.heap, next.phase.batch))
  {
    hide Keys.Key, Changed, Stamped, Filed;
    ChangedOneMore(EntriesOf(s), s.lastSave, done, ObjectsOf(s.heap, s.phase.batch), key);
    assert ObjectsOf(s.heap, s.phase.batch + [s.index[key]]) == ObjectsOf(s.heap, s.phase.batch) + [Live(s, key)];
  }

  // ---------------------------------------------------------------------------
  // The rows
  // ---------------------------------------------------------------------------

  lemma {:induction false} WrittenFront(t: Table, entries: seq<Entry>)
    requires entries != []
    ensures Written(t, entries) == Written(t[KeyOf(entries[0]) := Encode(entries[0])], entries[1..])
  {
    hide Encode;
    var n := |entries| - 1;
    if n == 0 {
      assert entries[..0] == [] && entries[1..] == [];
    } else {
      WrittenFront(t, entries[..n]);
      assert entries[..n][1..] == entries[1..][..n - 1];
    }
  }

  /** The transaction's rows over the table are the rows written to the table. */
  lemma {:induction false} CommitWrites(t: Table, entries: seq<Entry>)
    ensures t + Written(map[], entries) == Written(t, entries)
  {
    hide Encode;
    if entries != [] {
      CommitWrites(t, entries[..|entries| - 1]);
    }
  }

  lemma {:induction false} WriteRun(cfg: Config, zone: int, s: State) returns (run: seq<Event>)
    requires Shape(s) && s.phase.Writing? && forall id :: id in s.phase.batch ==> id in s.heap
    ensures Legal(cfg, zone, s, run)
    ensures Exec(cfg, zone, s, run)
            == s.(phase := Writing(s.phase.start, [], Written(s.phase.tx, ObjectsOf(s.heap, s.phase.batch))))
    decreases |s.phase.batch|
  {
    hide Keys.Key, Encode, Written;
    var objects := ObjectsOf(s.heap, s.phase.batch);
    if s.phase.batch == [] {
      run := [];
      NothingToWrite(s.phase.tx, objects);
    } else {
      var next := Apply(cfg, zone, s, WriteOne);
      WrittenFront(s.phase.tx, objects);
      assert ObjectsOf(s.heap, s.phase.batch[1..]) == objects[1..];
      var rest := WriteRun(cfg, zone, next);
      run := [WriteOne] + rest;
      assert run[1..] == rest;
    }
  }

  lemma NothingToWrite(t: Table, entries: seq<Entry>)
    requires entries == []
    ensures Written(t, entries) == t
  {
  }

  // ---------------------------------------------------------------------------
  // The round
  // ---------------------------------------------------------------------------

  /** A save determines the table. */
  lemma SavedIsUnique(t: Table, a: Table, b: Table, entries: map<string, Entry>, since: int)
    requires Saved(t, a, entries, since) && Saved(t, b, entries, since)
    ensures a == b
  {
    hide Stamped, Encode;
    forall r
      ensures r in a <==> r in b
      ensures r in a ==> a[r] == b[r]
    {
      if k :| k in entries && Stamped(entries[k], since) && KeyOf(entries[k]) == r {
      } else {
        assert SameRows(t, a, r) && SameRows(t, b, r);
      }
    }
  }

  /** The scan, over the keys in any order, up to its end. */
  lemma ScanPhase(cfg: Config, zone: int, s: State, order: seq<string>) returns (run: seq<Event>, batch: seq<nat>)
    requires Shape(s) && s.phase.Idle? && Sets.Elements(order) == s.index.Keys
    requires forall i, j :: 0 <= i < j < |order| ==> order[i] != order[j]
    ensures forall id :: id in batch ==> id in s.heap
    ensures Changed(EntriesOf(s), s.lastSave, s.index.Keys, ObjectsOf(s.heap, batch))
    ensures Legal(cfg, zone, s, run) && Exec(cfg, zone, s, run) == s.(phase := Writing(s.now, batch, map[]))
  {
    hide Keys.Key, Stamped, Filed;
    var scanning := s.(phase := Scanning(s.now, s.index.Keys, []));
    assert Apply(cfg, zone, s, StartScan) == scanning;
    assert EntriesOf(scanning) == EntriesOf(s);
    var scans;
    scans, batch := ScanRun(cfg, zone, scanning, order, {});
    var scanned := s.(phase := Scanning(s.now, {}, batch));
    assert [EndScan][1..] == [];
    RunAfterRun(cfg, zone, scanning, scans, [EndScan]);
    run := [StartScan] + (scans + [EndScan]);
    assert run[1..] == scans + [EndScan];
  }

  /** A round whose save succeeds, whatever the order of the scan: with the result Persister.Tick promises the
      protocol ends where the round does. */
  lemma TickIsRun(cfg: Config, zone: int, s: State, order: seq<string>, db: Table) returns (run: seq<Event>)
    requires Shape(s) && s.phase.Idle? && Sets.Elements(order) == s.index.Keys
    requires forall i, j :: 0 <= i < j < |order| ==> order[i] != order[j]
    requires Saved(s.db, db, EntriesOf(s), s.lastSave)
    ensures Legal(cfg, zone, s, run) && Exec(cfg, zone, s, run) == s.(db := db, lastSave := s.now)
  {
    hide Keys.Key, Stamped, Filed, Changed, Saved, Written;
    var scan, batch := ScanPhase(cfg, zone, s, order);
    var writing := s.(phase := Writing(s.now, batch, map[]));
    var writes := WriteRun(cfg, zone, writing);
    var objects := ObjectsOf(s.heap, batch);
    var written := writing.(phase := Writing(s.now, [], Written(map[], objects)));
    CommitWrites(s.db, objects);
    WrittenIsSaved(s.db, EntriesOf(s), s.lastSave, objects);
    SavedIsUnique(s.db, db, Written(s.db, objects), EntriesOf(s), s.lastSave);
    assert [Commit][1..] == [];
    assert Exec(cfg, zone, written, [Commit]) == s.(db := db, lastSave := s.now);
    RunAfterRun(cfg, zone, writing, writes, [Commit]);
    RunAfterRun(cfg, zone, s, scan, writes + [Commit]);
    run := scan + (writes + [Commit]);
  }

  /** A round whose save fails leaves everything as it was. */
  lemma FailedTickIsRun(cfg: Config, zone: int, s: State, order: seq<string>) returns (run: seq<Event>)
    requires Shape(s) && s.phase.Idle? && Sets.Elements(order) == s.index.Keys
    requires forall i, j :: 0 <= i < j < |order| ==> order[i] != order[j]
    ensures Legal(cfg, zone, s, run) && Exec(cfg, zone, s, run) == s
  {
    hide Keys.Key, Stamped, Filed, Changed;
    var scan, batch := ScanPhase(cfg, zone, s, order);
    assert [SaveFails][1..] == [];
    RunAfterRun(cfg, zone, s, scan, [SaveFails]);
    run := scan + [SaveFails];
  }
}
