/** Runs of the server, from nothing cached, in which it falls short of its documentation. */
module Shortfalls {
  import opened CacheModel
  import opened Clock
  import opened Dns
  import opened Entries
  import opened Options
  import opened RefreshModel
  import opened Server
  import opened ServerRuns
  import Window
  import Keys
  import UsageDays

  /** The default configuration, for a cache of at most `maxEntries`. */
  function Default(maxEntries: int): Env
  {
    Env(Config(60 * SECOND, 86400 * SECOND, maxEntries, true, 1800 * SECOND, 2, 7), 0, 30 * SECOND)
  }

  // ---------------------------------------------------------------------------
  // A refresh that caches a truncated answer
  // ---------------------------------------------------------------------------

  /** The entry two days after the first request, asked for again. */
  function TwoDaysOld(q: Question, good: Msg): Entry
  {
    var env := Default(10000);
    Asked(env.cfg, 0, NewEntry(env.cfg, 0, q, good, AnswerTtl(good), SECOND), 2 * DAY)
  }

  lemma TwoDaysCount()
    ensures UsageDays.DaysUsed(UsageDays.Mark(UsageDays.Pack(0), 2), 2, 7) == 2
  {
    hide UsageDays.DaysUsed, UsageDays.Mark, UsageDays.Pack, UsageDays.Represents;
    var h := UsageDays.History(0, {0});
    var h2 := UsageDays.History(2, {0, 2});
    UsageDays.PackIsOneDay(0);
    UsageDays.MarkRefinesInsert(UsageDays.Pack(0), h, 2);
    assert UsageDays.Insert(h, 2) == h2;
    UsageDays.DaysUsedCountsWindow(UsageDays.Mark(UsageDays.Pack(0), 2), h2, 2, 7);
    assert UsageDays.InWindow(h2, 2, 7) == {0, 2};
  }

  lemma UsualAfterTwoDays(q: Question, good: Msg)
    ensures var e := TwoDaysOld(q, good);
            && Default(10000).cfg.Usual(e, 2 * DAY, 0) && e.hitCount == 1 && e.lastHitAt == 2 * DAY
            && e.storedAt == SECOND && e.cachedTtl <= 86400 * SECOND && e.Key() == QKey(q)
            && !Default(10000).cfg.Servable(e, 2 * DAY) && e.response == good
  {
    hide UsageDays.DaysUsed, UsageDays.Mark, UsageDays.Pack, OriginalTtl, ClampTtl, Keys.Key;
    var cfg := Default(10000).cfg;
    TwoDaysCount();
    NewEntryKey(cfg, 0, q, good, AnswerTtl(good), SECOND);
    ClampTtlInRange(cfg, OriginalTtl(good, AnswerTtl(good)) * SECOND);
    assert LocalDay(SECOND, 0) == 0 && LocalDay(2 * DAY, 0) == 2;
  }

  /** Where the run stands before the tick: the one entry is usual and overdue. */
  ghost predicate BeforeTick(env: Env, s: Server, q: Question, good: Msg)
  {
    && Sane(env, s) && s.now == 2 * DAY
    && s.cache.entries == map[QKey(q) := TwoDaysOld(q, good)] && s.failures == map[] && s.jobs == {}
  }

  lemma AskedTwice(q: Question, good: Msg) returns (s: Server)
    requires IsCacheable(good)
    ensures var env := Default(10000);
            var run := [Reply(q, good, None)] + ([Advance(2 * DAY)] + ([Query] + ([Lookup(QKey(q))] + [])));
            && Legal(env, Start(SECOND, map[]), run) && Exec(env, Start(SECOND, map[]), run) == s
            && BeforeTick(env, s, q, good)
  {
    hide Keys.Key, UsageDays.Mark, UsageDays.Pack, OriginalTtl, ClampTtl, IsCacheable, Window.Record, Legal, Exec;
    var env := Default(10000);
    var k := QKey(q);
    UsualAfterTwoDays(q, good);
    NewEntryKey(env.cfg, 0, q, good, AnswerTtl(good), SECOND);
    var s0 := Start(SECOND, map[]);
    var s1 := Apply(env, s0, Reply(q, good, None));
    var s2 := Apply(env, s1, Advance(2 * DAY));
    var s3 := Apply(env, s2, Query);
    s := Apply(env, s3, Lookup(k));
    StepKeepsSane(env, s0, Reply(q, good, None));
    StepKeepsSane(env, s1, Advance(2 * DAY));
    StepKeepsSane(env, s2, Query);
    StepKeepsSane(env, s3, Lookup(k));
    EmptyRun(env, s);
    RunThen(env, s3, Lookup(k), []);
    RunThen(env, s2, Query, [Lookup(k)] + []);
    RunThen(env, s1, Advance(2 * DAY), [Query] + ([Lookup(k)] + []));
    RunThen(env, s0, Reply(q, good, None), [Advance(2 * DAY)] + ([Query] + ([Lookup(k)] + [])));
  }

  lemma EmptyRun(env: Env, s: Server)
    requires Sane(env, s)
    ensures Legal(env, s, []) && Exec(env, s, []) == s
  {
  }

  /** The tick selects the entry and drops nothing. */
  lemma TickPicks(s: Server, q: Question, good: Msg)
    requires BeforeTick(Default(10000), s, q, good)
    ensures var env := Default(10000);
            var tick := Tick([Candidate(QKey(q), true, 1)]);
            && Enabled(env, s, tick)
            && Apply(env, s, tick).cache.entries == s.cache.entries && Apply(env, s, tick).jobs == {QKey(q)}
  {
    hide Keys.Key, UsageDays.DaysUsed, TwoDaysOld, Picks, GoodClock;
    var env := Default(10000);
    var k := QKey(q);
    UsualAfterTwoDays(q, good);
    OnlyCandidate(env, s, k);
  }

  lemma OnlyCandidate(env: Env, s: Server, k: string)
    requires env.Valid() && s.cache.entries.Keys == {k} && s.failures == map[]
    requires var e := s.cache.entries[k];
             env.cfg.Usual(e, s.now, env.zone) && s.now >= e.storedAt + env.cfg.Life(e) && e.hitCount == 1
    ensures Picks(TickCandidates(env, s), [Candidate(k, true, 1)])
  {
    hide UsageDays.DaysUsed, Threshold, Scaled;
    var c := Candidate(k, true, 1);
    var verdicts := TickVerdicts(env, s);
    assert verdicts[k] == Due(true);
    assert DueKeys(verdicts) == {k};
    assert TickCandidates(env, s) == {c};
  }

  /** With the default configuration, from an empty cache: a name asked for on two days becomes usual, its refresh
      gets a truncated answer, as after a failed retry over TCP, and that answer is cached. */
  lemma RefreshCachesTruncated(q: Question, good: Msg, cut: Msg)
    requires IsCacheable(good) && cut.truncated && cut.rcode == RCODE_SUCCESS
    ensures var env := Default(10000);
            var run := [Reply(q, good, None), Advance(2 * DAY), Query, Lookup(QKey(q)),
                        Tick([Candidate(QKey(q), true, 1)]), Refreshed(q, cut, None)];
            && Legal(env, Start(SECOND, map[]), run)
            && !Complete(Exec(env, Start(SECOND, map[]), run))
            && QKey(q) in Exec(env, Start(SECOND, map[]), run).cache.entries
            && Exec(env, Start(SECOND, map[]), run).cache.entries[QKey(q)].response == cut
  {
    hide Keys.Key, TwoDaysOld, IsCacheable, Picks, GoodClock, Exec, Legal, Window.Record, CacheModel.Set;
    var env := Default(10000);
    var k := QKey(q);
    var tick := Tick([Candidate(k, true, 1)]);
    var refreshed := Refreshed(q, cut, None);
    var s := AskedTwice(q, good);
    TickPicks(s, q, good);
    var ticked := Apply(env, s, tick);
    StepKeepsSane(env, s, tick);
    var end := Apply(env, ticked, refreshed);
    StepKeepsSane(env, ticked, refreshed);
    SetAnswers(env, ticked.cache, q, cut, RefreshTtl(cut), ticked.now, None);
    EmptyRun(env, end);
    RunThen(env, ticked, refreshed, []);
    RunThen(env, s, tick, [refreshed] + []);
    var first := [Reply(q, good, None)] + ([Advance(2 * DAY)] + ([Query] + ([Lookup(k)] + [])));
    RunAfterRun(env, Start(SECOND, map[]), first, [tick] + ([refreshed] + []));
    assert first + ([tick] + ([refreshed] + []))
        == [Reply(q, good, None), Advance(2 * DAY), Query, Lookup(k), tick, refreshed];
  }

  // ---------------------------------------------------------------------------
  // An eviction that is not of the least recently used entry
  // ---------------------------------------------------------------------------

  /** "a.", "b.", ... */
  function Letter(i: nat): string
    requires i < 26
  {
    [('a' as int + i) as char, '.']
  }

  function LetterKey(i: nat): string
    requires i < 26
  {
    QKey(Question(Letter(i), 1))
  }

  lemma LetterKeysDiffer(i: nat, j: nat)
    requires i < 26 && j < 26 && i != j
    ensures LetterKey(i) != LetterKey(j)
  {
    hide Keys.Key;
    LetterIsCanonical(i);
    LetterIsCanonical(j);
    assert Letter(i)[0] != Letter(j)[0];
    Keys.KeyFaithful(Letter(i), 1, Letter(j), 1);
  }

  lemma LetterIsCanonical(i: nat)
    requires i < 26
    ensures Keys.CanonicalName(Letter(i)) == Letter(i)
  {
    var name := Letter(i);
    var lower := Keys.LowerAll(name);
    forall j | 0 <= j < 2
      ensures lower[j] == name[j]
    {
      Keys.LowerAllAt(name, j);
    }
    assert lower == name;
  }

  /** The entry of the i-th name, asked for once at second i. */
  function EntryAt(resp: Msg, i: nat): Entry
    requires i < 26
  {
    NewEntry(Default(9).cfg, 0, Question(Letter(i), 1), resp, AnswerTtl(resp), i * SECOND)
  }

  function Filled(resp: Msg, n: nat): map<string, Entry>
    requires n <= 26
  {
    if n == 0 then map[] else Filled(resp, n - 1)[LetterKey(n - 1) := EntryAt(resp, n - 1)]
  }

  lemma {:induction false} FilledHas(resp: Msg, n: nat)
    requires n <= 26
    ensures |Filled(resp, n)| == n
    ensures forall i :: 0 <= i < n ==>
              LetterKey(i) in Filled(resp, n) && Filled(resp, n)[LetterKey(i)] == EntryAt(resp, i)
    ensures forall k :: k in Filled(resp, n) ==> exists i :: 0 <= i < n && k == LetterKey(i)
  {
    hide LetterKey, EntryAt;
    if n > 0 {
      FilledHas(resp, n - 1);
      forall i | 0 <= i < n - 1
        ensures LetterKey(i) != LetterKey(n - 1)
      {
        LetterKeysDiffer(i, n - 1);
      }
      var before := Filled(resp, n - 1);
      assert LetterKey(n - 1) !in before;
      assert Filled(resp, n).Keys == before.Keys + {LetterKey(n - 1)};
      assert |Filled(resp, n)| == |Filled(resp, n).Keys| && |before| == |before.Keys|;
    }
  }

  function FilledAt(resp: Msg, n: nat): Server
    requires n <= 26
  {
    var s := Start(0, map[]);
    s.(now := n * SECOND, cache := s.cache.(entries := Filled(resp, n)))
  }

  /** Nine names asked for at seconds 0 to 8. */
  lemma {:induction false} FillRun(resp: Msg, n: nat) returns (run: seq<Event>)
    requires IsCacheable(resp) && n <= 9
    ensures Legal(Default(9), Start(0, map[]), run) && Exec(Default(9), Start(0, map[]), run) == FilledAt(resp, n)
  {
    hide LetterKey, EntryAt, IsCacheable, Keys.Key, Legal, Exec, Letter;
    var env := Default(9);
    if n == 0 {
      run := [];
      assert FilledAt(resp, 0) == Start(0, map[]);
      EmptyRun(env, Start(0, map[]));
    } else {
      var before := FillRun(resp, n - 1);
      OneMoreName(resp, n - 1);
      var q := Question(Letter(n - 1), 1);
      RunAfterRun(env, Start(0, map[]), before, [Reply(q, resp, None)] + ([Advance(n * SECOND)] + []));
      run := before + ([Reply(q, resp, None)] + ([Advance(n * SECOND)] + []));
    }
  }

  lemma OneMoreName(resp: Msg, n: nat)
    requires IsCacheable(resp) && n < 9
    ensures var run := [Reply(Question(Letter(n), 1), resp, None)] + ([Advance((n + 1) * SECOND)] + []);
            && Legal(Default(9), FilledAt(resp, n), run)
            && Exec(Default(9), FilledAt(resp, n), run) == FilledAt(resp, n + 1)
  {
    hide IsCacheable, Keys.Key, NewEntry, Legal, Exec, Letter, Filled;
    var env := Default(9);
    var q := Question(Letter(n), 1);
    var s := FilledAt(resp, n);
    var reply := Reply(q, resp, None);
    FilledOneMore(resp, n);
    var next := Apply(env, s, reply);
    StepKeepsSane(env, s, reply);
    StepKeepsSane(env, next, Advance((n + 1) * SECOND));
    EmptyRun(env, Apply(env, next, Advance((n + 1) * SECOND)));
    RunThen(env, next, Advance((n + 1) * SECOND), []);
    RunThen(env, s, reply, [Advance((n + 1) * SECOND)] + []);
  }

  lemma FilledOneMore(resp: Msg, n: nat)
    requires n < 9
    ensures Insert(Filled(resp, n), EntryAt(resp, n), None) == Filled(resp, n + 1)
    ensures |Filled(resp, n)| == n && LetterKey(n) !in Filled(resp, n)
  {
    hide Keys.Key, NewEntry, Letter;
    FilledHas(resp, n);
    NewEntryKey(Default(9).cfg, 0, Question(Letter(n), 1), resp, AnswerTtl(resp), n * SECOND);
    forall i | 0 <= i < n
      ensures LetterKey(i) != LetterKey(n)
    {
      LetterKeysDiffer(i, n);
    }
  }

  /** In that cache, full at nine, the second name may go before the first. */
  lemma SecondMayGo(resp: Msg)
    ensures var entries := Filled(resp, 9);
            && Evicts(entries, 9 * SECOND, Some(LetterKey(1))) && !Oldest(entries, entries.Keys, LetterKey(1))
            && LetterKey(0) in entries && LetterKey(0) != LetterKey(1)
  {
    hide LetterKey, Filled, EntryAt;
    var entries := Filled(resp, 9);
    FilledHas(resp, 9);
    LetterKeysDiffer(0, 1);
    forall i | 0 <= i < 9
      ensures EntryAt(resp, i).lastHitAt == i * SECOND && !Dead(EntryAt(resp, i), 9 * SECOND)
    {
      LiveAt(resp, i);
    }
    var sample := entries.Keys - {LetterKey(0)};
    assert |entries.Keys| == 9 && |sample| == 8;
    forall k | k in sample
      ensures entries[LetterKey(1)].lastHitAt <= entries[k].lastHitAt && !Dead(entries[k], 9 * SECOND)
    {
      var i :| 0 <= i < 9 && k == LetterKey(i);
    }
    assert FullSample(entries, sample, 9 * SECOND) && Oldest(entries, sample, LetterKey(1));
  }

  lemma LiveAt(resp: Msg, i: nat)
    requires i < 9
    ensures EntryAt(resp, i).lastHitAt == i * SECOND && !Dead(EntryAt(resp, i), 9 * SECOND)
  {
    hide OriginalTtl, ClampTtl, UsageDays.Pack, Keys.CanonicalName;
    ClampTtlInRange(Default(9).cfg, OriginalTtl(resp, AnswerTtl(resp)) * SECOND);
  }

  /** From an empty cache of at most nine entries: nine names asked for one after another and then a tenth, whose
      insertion may evict the second name while the first, which nobody asked for since, stays. */
  lemma NineNamesNotLru(resp: Msg) returns (run: seq<Event>)
    requires IsCacheable(resp)
    ensures var env := Default(9);
            && Legal(env, Start(0, map[]), run)
            && var s := Exec(env, Start(0, map[]), run);
            var tenth := Reply(Question(Letter(9), 1), resp, Some(LetterKey(1)));
            && Sane(env, s) && Enabled(env, s, tenth)
            && LetterKey(0) in s.cache.entries && LetterKey(1) in s.cache.entries
            && s.cache.entries[LetterKey(0)].lastHitAt < s.cache.entries[LetterKey(1)].lastHitAt
            && LetterKey(0) in Apply(env, s, tenth).cache.entries && LetterKey(1) !in Apply(env, s, tenth).cache.entries
  {
    hide LetterKey, Filled, EntryAt, IsCacheable, Evicts, Keys.Key, Legal, Exec;
    run := FillRun(resp, 9);
    FilledHas(resp, 9);
    SecondMayGo(resp);
    LiveAt(resp, 0);
    LiveAt(resp, 1);
    TenthEvicts(resp);
  }

  lemma TenthEvicts(resp: Msg)
    requires IsCacheable(resp)
    ensures var env := Default(9);
            var s := FilledAt(resp, 9);
            var tenth := Reply(Question(Letter(9), 1), resp, Some(LetterKey(1)));
            && Sane(env, s) && Enabled(env, s, tenth)
            && LetterKey(0) in Apply(env, s, tenth).cache.entries && LetterKey(1) !in Apply(env, s, tenth).cache.entries
  {
    hide Filled, EntryAt, IsCacheable, Evicts, Keys.Key, NewEntry, Letter;
    var env := Default(9);
    FilledHas(resp, 9);
    SecondMayGo(resp);
    forall i | 0 <= i < 9
      ensures LetterKey(i) != LetterKey(9)
    {
      LetterKeysDiffer(i, 9);
    }
    NewEntryKey(env.cfg, 0, Question(Letter(9), 1), resp, AnswerTtl(resp), 9 * SECOND);
  }
}
