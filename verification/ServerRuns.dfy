/** Properties of whole runs of the server: the usage history ignores refreshes, the counters add up,
    pruning agrees with selection, and repeated failures back off. */
module ServerRuns {
  import opened CacheInvariant
  import opened CacheModel
  import opened Clock
  import opened Dns
  import opened Entries
  import opened Options
  import opened RefreshModel
  import opened Server
  import Keys
  import UsageDays

  // ---------------------------------------------------------------------------
  // The usage history ignores refreshes
  // ---------------------------------------------------------------------------

  /** k is in the cache in every state of the run. */
  ghost predicate StaysCached(env: Env, s: Server, k: string, run: seq<Event>)
    requires Legal(env, s, run)
    decreases |run|
  {
    k in s.cache.entries && (run == [] || StaysCached(env, Apply(env, s, run[0]), k, run[1..]))
  }

  /** The local days of the client requests for k, served or not. */
  ghost function AskedDays(env: Env, s: Server, k: string, run: seq<Event>): seq<int>
    requires Legal(env, s, run)
    decreases |run|
  {
    if run == [] then []
    else
      (if run[0] == Lookup(k) then [LocalDay(s.now, env.zone)] else [])
      + AskedDays(env, Apply(env, s, run[0]), k, run[1..])
  }

  /** The replies for k served from the cache, fresh, late or stale. */
  ghost function Serves(env: Env, s: Server, k: string, run: seq<Event>): nat
    requires Legal(env, s, run)
    decreases |run|
  {
    if run == [] then 0
    else
      (if (run[0] == Lookup(k) && Hits(env.cfg, s.cache, k, s.now))
       || (run[0] == Stale(k) && StaleHits(env.cfg, s.cache, k, s.now))
       then 1 else 0)
      + Serves(env, Apply(env, s, run[0]), k, run[1..])
  }

  /** What one event does to the history of a key that stays in the cache. */
  lemma StepHistory(env: Env, s: Server, k: string, ev: Event)
    requires Sane(env, s) && Enabled(env, s, ev)
    requires k in s.cache.entries && k in Apply(env, s, ev).cache.entries
    ensures var e := s.cache.entries[k];
            var e' := Apply(env, s, ev).cache.entries[k];
            && e'.usedDays == (if ev == Lookup(k) then UsageDays.Mark(e.usedDays, LocalDay(s.now, env.zone))
                               else e.usedDays)
            && e'.hitCount == e.hitCount + Serves(env, s, k, [ev])
  {
    hide Keys.Key, UsageDays.Mark, NewEntry, GoodClock, Picks, TickCandidates, MayEvict, Window.Record;
    assert [ev][1..] == [];
    match ev
    case Reply(q, resp, victim) => NewEntryKey(env.cfg, env.zone, q, resp, AnswerTtl(resp), s.now);
    case Refreshed(q, resp, victim) => NewEntryKey(env.cfg, env.zone, q, resp, RefreshTtl(resp), s.now);
    case _ =>
  }

  /** While a key stays cached its usage word is the fold of MarkUsed over the client requests alone, and
      its hit count grows by the served replies alone, whatever refreshes are interleaved. */
  lemma {:induction false} HistoryIgnoresRefreshes(env: Env, s: Server, k: string, run: seq<Event>)
    requires Legal(env, s, run) && StaysCached(env, s, k, run)
    ensures k in Exec(env, s, run).cache.entries
    ensures var e := s.cache.entries[k];
            var e' := Exec(env, s, run).cache.entries[k];
            && e'.usedDays == UsageDays.MarkAll(e.usedDays, AskedDays(env, s, k, run))
            && e'.hitCount == e.hitCount + Serves(env, s, k, run)
    decreases |run|
  {
    hide Apply, Enabled, Sane, UsageDays.Mark, Hits, StaleHits;
    if run != [] {
      var next := Apply(env, s, run[0]);
      StepHistory(env, s, k, run[0]);
      HistoryIgnoresRefreshes(env, next, k, run[1..]);
      var rest := AskedDays(env, next, k, run[1..]);
      var days := AskedDays(env, s, k, run);
      if run[0] == Lookup(k) {
        assert days[0] == LocalDay(s.now, env.zone) && days[1..] == rest;
      } else {
        assert days == rest;
      }
      OneServe(env, s, k, run);
    }
  }

  lemma OneServe(env: Env, s: Server, k: string, run: seq<Event>)
    requires Legal(env, s, run) && run != []
    ensures Legal(env, s, [run[0]])
    ensures Serves(env, s, k, run) == Serves(env, s, k, [run[0]]) + Serves(env, Apply(env, s, run[0]), k, run[1..])
  {
    hide Apply, Enabled, Sane, Hits, StaleHits;
    assert [run[0]][1..] == [];
  }

  /** So the refresher's day count is the number of distinct days clients asked, over any run. */
  lemma DaysUsedCountsClientDays(env: Env, s: Server, k: string, run: seq<Event>, h: UsageDays.History)
    requires Legal(env, s, run) && StaysCached(env, s, k, run)
    requires UsageDays.Represents(s.cache.entries[k].usedDays, h)
    ensures k in Exec(env, s, run).cache.entries
    ensures var end := Exec(env, s, run);
            var today := LocalDay(end.now, env.zone);
            var asked := UsageDays.InsertAll(h, AskedDays(env, s, k, run));
            UsageDays.DaysUsed(end.cache.entries[k].usedDays, today, env.cfg.keepWindowDays)
            == |UsageDays.InWindow(asked, today, env.cfg.keepWindowDays)|
  {
    hide UsageDays.DaysUsed, UsageDays.Represents, UsageDays.MarkAll, UsageDays.InWindow, Exec, AskedDays;
    HistoryIgnoresRefreshes(env, s, k, run);
    AskedDaysInRange(env, s, k, run);
    UsageDays.MarkAllRefinesSet(s.cache.entries[k].usedDays, h, AskedDays(env, s, k, run));
    UsageDays.DaysUsedCountsWindow(Exec(env, s, run).cache.entries[k].usedDays,
      UsageDays.InsertAll(h, AskedDays(env, s, k, run)), LocalDay(Exec(env, s, run).now, env.zone),
      env.cfg.keepWindowDays);
  }

  /** From the moment a name enters the cache, over any run in which it stays: its usual-domain count at
      any time is the number of distinct days, insertion day included, on which clients asked for it
      within the window. */
  lemma DaysUsedSinceInsertion(env: Env, s: Server, q: Question, resp: Msg, victim: Option<string>, run: seq<Event>)
    requires Sane(env, s) && Enabled(env, s, Reply(q, resp, victim)) && QKey(q) !in s.cache.entries
    requires var entered := Apply(env, s, Reply(q, resp, victim));
             Legal(env, entered, run) && StaysCached(env, entered, QKey(q), run)
    ensures var entered := Apply(env, s, Reply(q, resp, victim));
            var end := Exec(env, entered, run);
            var first := LocalDay(s.now, env.zone);
            var today := LocalDay(end.now, env.zone);
            var asked := UsageDays.InsertAll(UsageDays.History(first, {first}), AskedDays(env, entered, QKey(q), run));
            && QKey(q) in end.cache.entries
            && UsageDays.DaysUsed(end.cache.entries[QKey(q)].usedDays, today, env.cfg.keepWindowDays)
               == |UsageDays.InWindow(asked, today, env.cfg.keepWindowDays)|
  {
    var first := LocalDay(s.now, env.zone);
    EntersWithOneDay(env, s, q, resp, victim);
    hide Apply, Enabled, StaysCached, UsageDays.DaysUsed, UsageDays.Represents, UsageDays.InWindow, Exec, AskedDays,
         GoodClock;
    UsageDays.PackIsOneDay(first);
    DaysUsedCountsClientDays(env, Apply(env, s, Reply(q, resp, victim)), QKey(q), run,
                             UsageDays.History(first, {first}));
  }

  lemma EntersWithOneDay(env: Env, s: Server, q: Question, resp: Msg, victim: Option<string>)
    requires Sane(env, s) && Enabled(env, s, Reply(q, resp, victim)) && QKey(q) !in s.cache.entries
    ensures 0 <= LocalDay(s.now, env.zone) < UsageDays.DAY_LIMIT
    ensures var entries := Apply(env, s, Reply(q, resp, victim)).cache.entries;
            QKey(q) in entries && entries[QKey(q)].usedDays == UsageDays.Pack(LocalDay(s.now, env.zone))
  {
    hide Keys.Key, MayEvict, UsageDays.Pack;
    NewEntryKey(env.cfg, env.zone, q, resp, AnswerTtl(resp), s.now);
  }

  lemma {:induction false} AskedDaysInRange(env: Env, s: Server, k: string, run: seq<Event>)
    requires Legal(env, s, run)
    ensures forall i :: 0 <= i < |AskedDays(env, s, k, run)| ==> AskedDays(env, s, k, run)[i] < UsageDays.DAY_LIMIT
    decreases |run|
  {
    hide Apply, Enabled;
    if run != [] {
      AskedDaysInRange(env, Apply(env, s, run[0]), k, run[1..]);
    }
  }

  // ---------------------------------------------------------------------------
  // The counters add up
  // ---------------------------------------------------------------------------

  /** Every query is a hit, a miss or still on its way through Get; every stale serve follows an error and
      every error a miss. */
  predicate Balanced(s: Server)
  {
    var c := s.cache.counters;
    && c.totalQueries == c.hits + c.misses + s.looking
    && c.lateHits <= c.hits
    && c.staleServes + s.failed <= c.errors
    && c.errors + s.resolving <= c.misses
  }

  lemma StepKeepsBalance(env: Env, s: Server, ev: Event)
    requires Sane(env, s) && Enabled(env, s, ev) && Balanced(s)
    ensures Balanced(Apply(env, s, ev))
  {
    hide Keys.Key, UsageDays.Mark, NewEntry, GoodClock, Picks, TickCandidates, MayEvict, Window.Record, Asked;
  }

  lemma {:induction false} RunKeepsBalance(env: Env, s: Server, run: seq<Event>)
    requires Legal(env, s, run) && Balanced(s)
    ensures Balanced(Exec(env, s, run))
    decreases |run|
  {
    hide Apply, Enabled, Sane, Balanced;
    if run != [] {
      StepKeepsBalance(env, s, run[0]);
      RunKeepsBalance(env, Apply(env, s, run[0]), run[1..]);
    }
  }

  // ---------------------------------------------------------------------------
  // Pruning agrees with selection
  // ---------------------------------------------------------------------------

  /** A cycle never drops a usual entry, and nothing it drops is among the refreshes it starts, which would
      put it back. */
  lemma TickDropsOnlyCold(env: Env, loaded: map<string, Entry>, s: Server, picked: seq<Candidate>, k: string)
    requires Consistent(env, loaded, s) && Enabled(env, s, Tick(picked))
    requires k in s.cache.entries && k !in Apply(env, s, Tick(picked)).cache.entries
    ensures !env.cfg.Usual(s.cache.entries[k], s.now, env.zone)
    ensures TickVerdicts(env, s)[k] == Cold && k !in KeysOf(picked)
  {
    hide EntryOk, TtlOk, Keys.Key, UsageDays.DaysUsed, GoodClock, Picks, Unused, HistoryInOrder;
    OkHistory(env, k, s.cache.entries[k], s.now);
    UnusedIsCold(env.cfg, env.zone, s.cache.entries[k], s.now);
    if k in KeysOf(picked) {
      PickedIsDue(env, s, k, picked);
    }
  }

  lemma OkHistory(env: Env, k: string, e: Entry, now: int)
    requires EntryOk(env, k, e, now)
    ensures HistoryInOrder(e, env.zone)
  {
    hide Keys.Key;
  }

  /** A cycle picks only entries whose verdict is due. */
  lemma PickedIsDue(env: Env, s: Server, k: string, picked: seq<Candidate>)
    requires Sane(env, s) && Enabled(env, s, Tick(picked)) && k in KeysOf(picked)
    ensures k in s.cache.entries && TickVerdicts(env, s)[k].Due?
  {
    hide UsageDays.DaysUsed, GoodClock, Classify;
    var c :| c in picked && c.key == k;
    assert c in TickCandidates(env, s);
  }

  // ---------------------------------------------------------------------------
  // Truncated answers
  // ---------------------------------------------------------------------------

  /** No cached answer is truncated. */
  ghost predicate Complete(s: Server)
  {
    forall k :: k in s.cache.entries ==> !s.cache.entries[k].response.truncated
  }

  /** The handler never caches a truncated reply; the refresher looks at the rcode alone. So a step keeps the
      cache free of truncated answers exactly when it is not a refresh that got one. */
  lemma StepKeepsCompleteIff(env: Env, s: Server, ev: Event)
    requires Sane(env, s) && Enabled(env, s, ev) && Complete(s)
    ensures Complete(Apply(env, s, ev)) <==> !(ev.Refreshed? && ev.resp.truncated)
  {
    hide Keys.Key, GoodClock, Picks, TickCandidates, MayEvict, Window.Record, UsageDays.Mark, UsageDays.Pack;
    match ev
    case Reply(q, resp, victim) => SetAnswers(env, s.cache, q, resp, AnswerTtl(resp), s.now, victim);
    case Refreshed(q, resp, victim) => SetAnswers(env, s.cache, q, resp, RefreshTtl(resp), s.now, victim);
    case _ =>
  }

  /** After an insertion the key holds the new answer and every other key left its old one. */
  lemma SetAnswers(env: Env, s: State, q: Question, resp: Msg, given: nat, now: int, victim: Option<string>)
    ensures var after := Set(env.cfg, env.zone, s, q, resp, given, now, victim).entries;
            && QKey(q) in after && after[QKey(q)].response == resp
            && forall k :: k in after && k != QKey(q) ==> k in s.entries && after[k] == s.entries[k]
  {
    hide Keys.Key, UsageDays.Pack;
    NewEntryKey(env.cfg, env.zone, q, resp, given, now);
  }

  // ---------------------------------------------------------------------------
  // Where answers come from
  // ---------------------------------------------------------------------------

  /** The event brings this answer for k. */
  predicate Answers(ev: Event, k: string, resp: Msg)
  {
    match ev
    case Reply(q, r, _) => QKey(q) == k && r == resp
    case Refreshed(q, r, _) => QKey(q) == k && r == resp
    case _ => false
  }

  lemma StepAnswers(env: Env, s: Server, ev: Event, k: string)
    requires Sane(env, s) && Enabled(env, s, ev) && k in Apply(env, s, ev).cache.entries
    ensures var resp := Apply(env, s, ev).cache.entries[k].response;
            Answers(ev, k, resp) || (k in s.cache.entries && s.cache.entries[k].response == resp)
  {
    hide Keys.Key, GoodClock, Picks, TickCandidates, MayEvict, Window.Record, UsageDays.Mark, UsageDays.Pack, NewEntry;
    match ev
    case Reply(q, resp, victim) => SetAnswers(env, s.cache, q, resp, AnswerTtl(resp), s.now, victim);
    case Refreshed(q, resp, victim) => SetAnswers(env, s.cache, q, resp, RefreshTtl(resp), s.now, victim);
    case _ =>
  }

  /** Over any run: the answer cached under a key was there at the start, or the upstream gave it during the
      run to a question with that very key. */
  lemma {:induction false} AnswersHaveASource(env: Env, s: Server, run: seq<Event>, k: string)
    requires Legal(env, s, run) && k in Exec(env, s, run).cache.entries
    ensures var resp := Exec(env, s, run).cache.entries[k].response;
            || (k in s.cache.entries && s.cache.entries[k].response == resp)
            || exists i :: 0 <= i < |run| && Answers(run[i], k, resp)
    decreases |run|
  {
    hide Apply, Enabled, Sane, Answers;
    if run != [] {
      var next := Apply(env, s, run[0]);
      var resp := Exec(env, s, run).cache.entries[k].response;
      AnswersHaveASource(env, next, run[1..], k);
      if k in next.cache.entries && next.cache.entries[k].response == resp {
        StepAnswers(env, s, run[0], k);
      } else {
        var i :| 0 <= i < |run[1..]| && Answers(run[1..][i], k, resp);
        assert run[i + 1] == run[1..][i];
      }
    }
  }

  // ---------------------------------------------------------------------------
  // Failures back off
  // ---------------------------------------------------------------------------

  function SumWaits(interval: int, n: nat): int
  {
    if n == 0 then 0 else SumWaits(interval, n - 1) + Wait(interval, n)
  }

  /** k is in the cache at every tick, and no refresh of it succeeds. */
  ghost predicate KeepsFailing(env: Env, s: Server, k: string, run: seq<Event>)
    requires Legal(env, s, run)
    decreases |run|
  {
    run == []
    || ((run[0].Tick? ==> k in s.cache.entries)
        && (run[0].Refreshed? ==> QKey(run[0].q) != k)
        && KeepsFailing(env, Apply(env, s, run[0]), k, run[1..]))
  }

  function FailuresOf(k: string, run: seq<Event>): nat
  {
    if run == [] then 0
    else (if run[0] == RefreshFailed(k) then 1 else 0) + FailuresOf(k, run[1..])
  }

  /** After n failures since `start`: the count is n, the last failure came no sooner than all the waits
      before it, and no refresh is in flight before the next try. */
  predicate Backed(env: Env, s: Server, k: string, start: int, n: nat)
  {
    && start <= s.now
    && (n == 0 ==> k !in s.failures)
    && (n > 0 ==>
          && k in s.failures && s.failures[k].count == n
          && start + SumWaits(env.interval, n) <= s.failures[k].nextTry <= s.now + Wait(env.interval, n)
          && (k in s.jobs ==> s.failures[k].nextTry <= s.now))
  }

  lemma StepKeepsBacked(env: Env, s: Server, k: string, start: int, n: nat, ev: Event)
    requires Sane(env, s) && Enabled(env, s, ev) && Backed(env, s, k, start, n)
    requires ev.Tick? ==> k in s.cache.entries
    requires ev.Refreshed? ==> QKey(ev.q) != k
    ensures Backed(env, Apply(env, s, ev), k, start, if ev == RefreshFailed(k) then n + 1 else n)
  {
    hide Keys.Key, Wait, GoodClock, CacheModel.Get, CacheModel.GetStale, CacheModel.Set, MayEvict, Prune;
    match ev
    case Tick(picked) =>
      if n > 0 && k in KeysOf(picked) {
        PickedNotBackingOff(env, s, k, picked);
      }
    case RefreshFailed(key) =>
      assert SumWaits(env.interval, n + 1) == SumWaits(env.interval, n) + Wait(env.interval, n + 1);
    case _ =>
  }

  lemma PickedNotBackingOff(env: Env, s: Server, k: string, picked: seq<Candidate>)
    requires Sane(env, s) && Enabled(env, s, Tick(picked)) && k in KeysOf(picked)
    ensures k in s.cache.entries && !BackingOff(s.failures, k, s.now)
  {
    hide UsageDays.DaysUsed, GoodClock, Threshold, Scaled, Picks;
    PickedIsDue(env, s, k, picked);
    var kept := KeepFailures(s.failures, s.cache.entries.Keys);
    assert TickVerdicts(env, s)[k] == Classify(env.cfg, env.zone, env.interval, kept, k, s.cache.entries[k], s.now);
  }

  lemma {:induction false} RunKeepsBacked(env: Env, s: Server, k: string, start: int, n: nat, run: seq<Event>)
    requires Legal(env, s, run) && KeepsFailing(env, s, k, run) && Backed(env, s, k, start, n)
    ensures Backed(env, Exec(env, s, run), k, start, n + FailuresOf(k, run))
    decreases |run|
  {
    hide Apply, Enabled, Sane, Backed;
    if run != [] {
      StepKeepsBacked(env, s, k, start, n, run[0]);
      RunKeepsBacked(env, Apply(env, s, run[0]), k, start, if run[0] == RefreshFailed(k) then n + 1 else n, run[1..]);
    }
  }

  /** Over any run in which a key stays cached and never succeeds, n failures of its refresh span at least
      the sum of the n - 1 waits between them. */
  lemma FailuresSpanWaits(env: Env, s: Server, k: string, run: seq<Event>)
    requires Legal(env, s, run) && KeepsFailing(env, s, k, run) && k !in s.failures
    requires FailuresOf(k, run) > 0
    ensures var n := FailuresOf(k, run);
            && Exec(env, s, run).now - s.now >= SumWaits(env.interval, n - 1)
            && k in Exec(env, s, run).failures && Exec(env, s, run).failures[k].count == n
  {
    hide Wait, Exec, KeepsFailing, FailuresOf, Legal, Enabled, Apply, Sane;
    RunKeepsBacked(env, s, k, s.now, 0, run);
    var n := FailuresOf(k, run);
    assert SumWaits(env.interval, n) == SumWaits(env.interval, n - 1) + Wait(env.interval, n);
  }
}
