/** What each operation does to an entry, to the counters and to the window, in the source's own fields and numbers,
    and what whole runs add up to. Nothing here is stated through the functions that compute it. */
module CacheRules {
  import opened CacheModel
  import opened Clock
  import opened Dns
  import opened Entries
  import opened Options
  import opened RefreshModel
  import opened Server
  import Keys
  import ServerRuns
  import UsageDays
  import Window

  // ---------------------------------------------------------------------------
  // Insertion
  // ---------------------------------------------------------------------------

  /** The first SOA record of the authority section is at i, or there is none and i is its length. */
  predicate FirstSoaAt(ns: seq<RR>, i: nat)
  {
    && i <= |ns| && (i < |ns| ==> ns[i].data.Soa?)
    && forall j :: 0 <= j < i ==> !ns[j].data.Soa?
  }

  /** The seconds an answer is kept for before the bounds apply: the TTL of its first record; without one the
      smaller of the first SOA's TTL and minimum; 60 when that is nothing. */
  function SecondsFor(resp: Msg, soa: nat): nat
    requires FirstSoaAt(resp.ns, soa)
  {
    var found := if resp.answer != [] then resp.answer[0].ttl
                 else if soa == |resp.ns| then 0
                 else if resp.ns[soa].data.minttl <= resp.ns[soa].ttl then resp.ns[soa].data.minttl
                 else resp.ns[soa].ttl;
    if found == 0 then 60 else found
  }

  function Bounded(ttl: int, low: int, high: int): int
  {
    if ttl < low && low <= high then low else if ttl > high then high else ttl
  }

  /** What an insertion leaves: k has the answer as fetched now, with its life; a new key starts its history, a known
      one keeps hits, last request and usage days; every other entry is as it was, but for the victim. */
  ghost predicate Stores(env: Env, s: State, q: Question, resp: Msg, soa: nat, now: int, victim: Option<string>,
                         after: map<string, Entry>)
    requires FirstSoaAt(resp.ns, soa) && GoodClock(env, now)
  {
    var k := QKey(q);
    var seconds := SecondsFor(resp, soa);
    var ttl := Bounded(seconds * 1_000_000_000, env.cfg.ttlMin, env.cfg.ttlMax);
    && k in after
    && var e := after[k];
    && e.response == resp && e.qtype == q.qtype && e.name == Keys.CanonicalName(q.name)
    && e.storedAt == now && e.originalTtl == seconds && e.cachedTtl == ttl && e.expiresAt == now + ttl
    && (k in s.entries ==>
          && e.hitCount == s.entries[k].hitCount && e.lastHitAt == s.entries[k].lastHitAt
          && e.usedDays == s.entries[k].usedDays)
    && (k !in s.entries ==>
          && e.hitCount == 1 && e.lastHitAt == now
          && UsageDays.Represents(e.usedDays, UsageDays.History(LocalDay(now, env.zone), {LocalDay(now, env.zone)})))
    && (forall other :: other != k ==>
          (other in after <==> other in s.entries && (k in s.entries || victim != Some(other))))
    && forall other :: other in after && other != k ==> after[other] == s.entries[other]
  }

  lemma NewEntryInFields(env: Env, q: Question, resp: Msg, soa: nat, given: nat, now: int)
    requires env.Valid() && GoodClock(env, now) && FirstSoaAt(resp.ns, soa)
    requires resp.answer != [] ==> given == SecondsFor(resp, soa) || (given == 0 && resp.answer[0].ttl == 0)
    requires resp.answer == [] ==> given == 0 || given == 60
    ensures var e := NewEntry(env.cfg, env.zone, q, resp, given, now);
            var seconds := SecondsFor(resp, soa);
            var ttl := Bounded(seconds * 1_000_000_000, env.cfg.ttlMin, env.cfg.ttlMax);
            var today := LocalDay(now, env.zone);
            && e.response == resp && e.qtype == q.qtype && e.name == Keys.CanonicalName(q.name)
            && e.storedAt == now && e.originalTtl == seconds && e.cachedTtl == ttl && e.expiresAt == now + ttl
            && e.hitCount == 1 && e.lastHitAt == now
            && UsageDays.Represents(e.usedDays, UsageDays.History(today, {today}))
  {
    hide Keys.CanonicalName, UsageDays.Pack, UsageDays.Represents;
    if resp.answer == [] {
      NegativeTtlIsFirstSoa(resp.ns, given, soa);
    }
    UsageDays.PackIsOneDay(LocalDay(now, env.zone));
  }

  lemma SetInFields(env: Env, s: State, q: Question, resp: Msg, soa: nat, given: nat, now: int, victim: Option<string>)
    requires env.Valid() && GoodClock(env, now) && FirstSoaAt(resp.ns, soa)
    requires resp.answer != [] ==> given == SecondsFor(resp, soa) || (given == 0 && resp.answer[0].ttl == 0)
    requires resp.answer == [] ==> given == 0 || given == 60
    ensures Stores(env, s, q, resp, soa, now, victim,
                   Set(env.cfg, env.zone, s, q, resp, given, now, victim).entries)
  {
    hide Keys.Key, Keys.CanonicalName, NewEntry, UsageDays.Represents, SecondsFor, GoodClock, Bounded;
    NewEntryInFields(env, q, resp, soa, given, now);
    NewEntryKey(env.cfg, env.zone, q, resp, given, now);
  }

  /** The upstream's reply to a client, and to a refresh: the same fields. */
  lemma ReplyStores(env: Env, s: Server, q: Question, resp: Msg, soa: nat, victim: Option<string>)
    requires Sane(env, s) && FirstSoaAt(resp.ns, soa)
    ensures Enabled(env, s, Reply(q, resp, victim)) ==>
              && Stores(env, s.cache, q, resp, soa, s.now, victim, Apply(env, s, Reply(q, resp, victim)).cache.entries)
              && Apply(env, s, Reply(q, resp, victim)).cache.counters == s.cache.counters
    ensures Enabled(env, s, Refreshed(q, resp, victim)) ==>
              && Stores(env, s.cache, q, resp, soa, s.now, victim,
                        Apply(env, s, Refreshed(q, resp, victim)).cache.entries)
              && Apply(env, s, Refreshed(q, resp, victim)).cache.counters == s.cache.counters
  {
    hide Keys.Key, NewEntry, Stores, GoodClock, MayEvict, CacheModel.Set;
    SetInFields(env, s.cache, q, resp, soa, AnswerTtl(resp), s.now, victim);
    SetInFields(env, s.cache, q, resp, soa, RefreshTtl(resp), s.now, victim);
    SetKeepsCounters(env, s.cache, q, resp, AnswerTtl(resp), s.now, victim);
    SetKeepsCounters(env, s.cache, q, resp, RefreshTtl(resp), s.now, victim);
  }

  lemma SetKeepsCounters(env: Env, s: State, q: Question, resp: Msg, given: nat, now: int, victim: Option<string>)
    ensures var after := Set(env.cfg, env.zone, s, q, resp, given, now, victim);
            after.counters == s.counters && after.window == s.window
  {
    hide NewEntry, Insert;
  }

  /** Only NOERROR and NXDOMAIN answers that are not truncated are stored for a client, only NOERROR ones by a
      refresh. */
  lemma StoredRcodes(env: Env, s: Server, q: Question, resp: Msg, victim: Option<string>)
    requires Sane(env, s)
    ensures Enabled(env, s, Reply(q, resp, victim)) ==> (resp.rcode == 0 || resp.rcode == 3) && !resp.truncated
    ensures Enabled(env, s, Refreshed(q, resp, victim)) ==> resp.rcode == 0
  {
    hide Keys.Key, MayEvict, GoodClock;
  }

  ghost predicate GoodRcodes(entries: map<string, Entry>)
  {
    forall k :: k in entries ==> entries[k].response.rcode == 0 || entries[k].response.rcode == 3
  }

  lemma StepKeepsRcodes(env: Env, s: Server, ev: Event)
    requires Sane(env, s) && Enabled(env, s, ev) && GoodRcodes(s.cache.entries)
    ensures GoodRcodes(Apply(env, s, ev).cache.entries)
  {
    hide Apply, Enabled, GoodClock;
    forall k | k in Apply(env, s, ev).cache.entries
      ensures Apply(env, s, ev).cache.entries[k].response.rcode in {0, 3}
    {
      ServerRuns.StepAnswers(env, s, ev, k);
      if ev.Reply? || ev.Refreshed? {
        StoredRcodes(env, s, ev.q, ev.resp, ev.victim);
      }
    }
  }

  /** Over any run from a cache without them, no cached answer is a SERVFAIL, a REFUSED or any other failure of the
      upstream. */
  lemma {:induction false} RunKeepsRcodes(env: Env, s: Server, run: seq<Event>)
    requires Legal(env, s, run) && GoodRcodes(s.cache.entries)
    ensures GoodRcodes(Exec(env, s, run).cache.entries)
    decreases |run|
  {
    hide Apply, Enabled, Sane, GoodRcodes;
    if run != [] {
      StepKeepsRcodes(env, s, run[0]);
      RunKeepsRcodes(env, Apply(env, s, run[0]), run[1..]);
    }
  }

  // ---------------------------------------------------------------------------
  // Lookups
  // ---------------------------------------------------------------------------

  /** An entry is served until its expiry, and after it while its answer is no older than max_age. */
  predicate Served(cfg: Config, entries: map<string, Entry>, key: string, now: int)
  {
    key in entries && (now <= entries[key].expiresAt || now - entries[key].storedAt <= cfg.maxAge)
  }

  /** After the upstream failed: with stale serving on, until 24 hours past the expiry. */
  predicate ServedStale(cfg: Config, entries: map<string, Entry>, key: string, now: int)
  {
    cfg.staleServing && key in entries && now - entries[key].expiresAt <= 86_400_000_000_000
  }

  /** A lookup: an entry found has its last request now and today among its days, served or not; a served one has
      one hit more; nothing else changes in any entry. */
  lemma LookupInFields(env: Env, s: Server, key: string)
    requires Sane(env, s) && Enabled(env, s, Lookup(key))
    ensures var before := s.cache.entries;
            var after := Apply(env, s, Lookup(key)).cache.entries;
            && after.Keys == before.Keys
            && (forall k :: k in before && k != key ==> after[k] == before[k])
            && (key in before ==>
                  after[key] == before[key].(
                    lastHitAt := s.now,
                    usedDays := UsageDays.Mark(before[key].usedDays, LocalDay(s.now, env.zone)),
                    hitCount := before[key].hitCount + if Served(env.cfg, before, key, s.now) then 1 else 0))
  {
    hide UsageDays.Mark, Window.Record, GoodClock;
  }

  /** A stale serve: one hit more and the last request now, no day of use. */
  lemma StaleInFields(env: Env, s: Server, key: string)
    requires Sane(env, s) && Enabled(env, s, Stale(key))
    ensures var before := s.cache.entries;
            var after := Apply(env, s, Stale(key)).cache.entries;
            && after.Keys == before.Keys
            && (forall k :: k in before && k != key ==> after[k] == before[k])
            && (key in before ==>
                  after[key] == if ServedStale(env.cfg, before, key, s.now)
                                then before[key].(lastHitAt := s.now, hitCount := before[key].hitCount + 1)
                                else before[key])
  {
    hide GoodClock;
  }

  // ---------------------------------------------------------------------------
  // Recency
  // ---------------------------------------------------------------------------

  /** The instant of the last client request for k in the run that counts for recency: a lookup, served or not, or a
      stale serve; else the one known before. */
  ghost function LastAsked(env: Env, s: Server, k: string, run: seq<Event>, before: int): int
    requires Legal(env, s, run)
    decreases |run|
  {
    if run == [] then before
    else
      var asked := run[0] == Lookup(k)
                   || (run[0] == Stale(k) && ServedStale(env.cfg, s.cache.entries, k, s.now));
      LastAsked(env, Apply(env, s, run[0]), k, run[1..], if asked then s.now else before)
  }

  lemma StepRecency(env: Env, s: Server, k: string, ev: Event)
    requires Sane(env, s) && Enabled(env, s, ev)
    requires k in s.cache.entries && k in Apply(env, s, ev).cache.entries
    ensures Apply(env, s, ev).cache.entries[k].lastHitAt
            == if ev == Lookup(k) || (ev == Stale(k) && ServedStale(env.cfg, s.cache.entries, k, s.now)) then s.now
               else s.cache.entries[k].lastHitAt
  {
    hide Keys.Key, UsageDays.Mark, NewEntry, GoodClock, Picks, TickCandidates, MayEvict, Window.Record;
    match ev
    case Reply(q, resp, victim) => NewEntryKey(env.cfg, env.zone, q, resp, AnswerTtl(resp), s.now);
    case Refreshed(q, resp, victim) => NewEntryKey(env.cfg, env.zone, q, resp, RefreshTtl(resp), s.now);
    case _ =>
  }

  /** While a key stays cached its last request is the last time a client asked for it, whatever refreshes there were:
      eviction, pruning and the load at a restart go by that. */
  lemma {:induction false} RecencyIgnoresRefreshes(env: Env, s: Server, k: string, run: seq<Event>)
    requires Legal(env, s, run) && ServerRuns.StaysCached(env, s, k, run)
    ensures k in Exec(env, s, run).cache.entries
    ensures Exec(env, s, run).cache.entries[k].lastHitAt == LastAsked(env, s, k, run, s.cache.entries[k].lastHitAt)
    decreases |run|
  {
    hide Apply, Enabled, Sane, ServedStale;
    if run != [] {
      StepRecency(env, s, k, run[0]);
      RecencyIgnoresRefreshes(env, Apply(env, s, run[0]), k, run[1..]);
    }
  }

  // ---------------------------------------------------------------------------
  // Counters
  // ---------------------------------------------------------------------------

  function Plus(a: Counters, b: Counters): Counters
  {
    Counters(a.hits + b.hits, a.lateHits + b.lateHits, a.misses + b.misses, a.staleServes + b.staleServes,
             a.errors + b.errors, a.totalQueries + b.totalQueries)
  }

  /** What one event counts. */
  function Counts(env: Env, s: Server, ev: Event): Counters
  {
    var entries := s.cache.entries;
    match ev
    case Query => Counters(0, 0, 0, 0, 0, 1)
    case Lookup(key) =>
      if !Served(env.cfg, entries, key, s.now) then Counters(0, 0, 1, 0, 0, 0)
      else if s.now > entries[key].expiresAt then Counters(1, 1, 0, 0, 0, 0)
      else Counters(1, 0, 0, 0, 0, 0)
    case Fail => Counters(0, 0, 0, 0, 1, 0)
    case Stale(key) =>
      if ServedStale(env.cfg, entries, key, s.now) then Counters(0, 0, 0, 1, 0, 0) else Counters(0, 0, 0, 0, 0, 0)
    case _ => Counters(0, 0, 0, 0, 0, 0)
  }

  ghost function Tally(env: Env, s: Server, run: seq<Event>): Counters
    requires Legal(env, s, run)
    decreases |run|
  {
    if run == [] then Counters(0, 0, 0, 0, 0, 0)
    else Plus(Counts(env, s, run[0]), Tally(env, Apply(env, s, run[0]), run[1..]))
  }

  lemma StepCounts(env: Env, s: Server, ev: Event)
    requires Sane(env, s) && Enabled(env, s, ev)
    ensures Apply(env, s, ev).cache.counters == Plus(s.cache.counters, Counts(env, s, ev))
  {
    hide Keys.Key, UsageDays.Mark, NewEntry, GoodClock, Picks, TickCandidates, MayEvict, Window.Record, Asked;
  }

  /** Over any run each counter grows by exactly the events it is for. */
  lemma {:induction false} CountersCountEvents(env: Env, s: Server, run: seq<Event>)
    requires Legal(env, s, run)
    ensures Exec(env, s, run).cache.counters == Plus(s.cache.counters, Tally(env, s, run))
    decreases |run|
  {
    hide Apply, Enabled, Sane, Counts;
    if run != [] {
      StepCounts(env, s, run[0]);
      CountersCountEvents(env, Apply(env, s, run[0]), run[1..]);
    }
  }

  // ---------------------------------------------------------------------------
  // The window
  // ---------------------------------------------------------------------------

  /** The lookups of a run, each with its minute and whether it was served. */
  ghost function LookupLog(env: Env, s: Server, run: seq<Event>): seq<Window.Event>
    requires Legal(env, s, run)
    decreases |run|
  {
    if run == [] then []
    else
      (match run[0]
       case Lookup(key) => [Window.Event(s.now / 60_000_000_000, Served(env.cfg, s.cache.entries, key, s.now))]
       case _ => [])
      + LookupLog(env, Apply(env, s, run[0]), run[1..])
  }

  lemma MinuteInNanoseconds(now: int)
    ensures Minute(now) == now / 60_000_000_000
  {
    var seconds := now / 1_000_000_000;
    assert now == 1_000_000_000 * seconds + now % 1_000_000_000;
    assert seconds == 60 * (seconds / 60) + seconds % 60;
  }

  lemma StepRecords(env: Env, s: Server, ev: Event)
    requires Sane(env, s) && Enabled(env, s, ev)
    ensures Apply(env, s, ev).cache.window
            == match ev
               case Lookup(key) =>
                 Window.Record(s.cache.window, s.now / 60_000_000_000, Served(env.cfg, s.cache.entries, key, s.now))
               case _ => s.cache.window
  {
    hide Keys.Key, UsageDays.Mark, NewEntry, GoodClock, Picks, TickCandidates, MayEvict, Window.Record, Minute;
    MinuteInNanoseconds(s.now);
    assert ev.Lookup? ==> s.now >= 0 by { ClockStarts(env, s); }
  }

  lemma ClockStarts(env: Env, s: Server)
    requires Sane(env, s)
    ensures s.now >= 0
  {
  }

  /** Events recorded one after another, from the front. */
  lemma {:induction false} RecordFront(w: seq<Window.Bucket>, log: seq<Window.Event>)
    requires |w| == 15 && log != [] && forall e :: e in log ==> e.minute >= 0
    ensures Window.RecordAll(w, log)
            == Window.RecordAll(Window.Record(w, log[0].minute, log[0].hit), log[1..])
  {
    hide Window.Record;
    var n := |log| - 1;
    if n == 0 {
      assert log[..0] == [] && log[1..] == [];
    } else {
      assert log[..n][1..] == log[1..][..n - 1] && log[..n][0] == log[0];
      RecordFront(w, log[..n]);
    }
  }

  lemma {:induction false} RunMovesForward(env: Env, s: Server, run: seq<Event>)
    requires Legal(env, s, run)
    ensures s.now <= Exec(env, s, run).now
    decreases |run|
  {
    hide Apply, Enabled, Sane;
    if run != [] {
      StepMovesForward(env, s, run[0]);
      RunMovesForward(env, Apply(env, s, run[0]), run[1..]);
    }
  }

  /** The minutes of the log never decrease, between the start and the end of the run. */
  lemma {:induction false} LogInOrder(env: Env, s: Server, run: seq<Event>)
    requires Legal(env, s, run)
    ensures forall e :: e in LookupLog(env, s, run) ==>
              s.now / 60_000_000_000 <= e.minute <= Exec(env, s, run).now / 60_000_000_000
    ensures Window.InOrder(LookupLog(env, s, run))
    decreases |run|
  {
    hide Apply, Enabled, Served, GoodClock;
    if run != [] {
      var next := Apply(env, s, run[0]);
      var rest := LookupLog(env, next, run[1..]);
      LogInOrder(env, next, run[1..]);
      RunMovesForward(env, s, run);
      StepMovesForward(env, s, run[0]);
      ClockStarts(env, s);
      var log := LookupLog(env, s, run);
      if run[0].Lookup? {
        assert log[0].minute == s.now / 60_000_000_000 && log[1..] == rest;
        OneMoreInFront(log);
      } else {
        assert log == rest;
      }
    }
  }

  lemma OneMoreInFront(log: seq<Window.Event>)
    requires log != [] && log[0].minute >= 0 && Window.InOrder(log[1..])
    requires forall e :: e in log[1..] ==> log[0].minute <= e.minute
    ensures Window.InOrder(log)
  {
    forall i | 0 < i < |log|
      ensures log[i] == log[1..][i - 1] && log[i] in log[1..]
    {
    }
  }

  lemma {:induction false} WindowRecordsLookups(env: Env, s: Server, run: seq<Event>)
    requires Legal(env, s, run)
    ensures forall e :: e in LookupLog(env, s, run) ==> e.minute >= 0
    ensures Exec(env, s, run).cache.window == Window.RecordAll(s.cache.window, LookupLog(env, s, run))
    decreases |run|
  {
    hide Apply, Enabled, GoodClock, Served, Window.Record, Exec;
    if run != [] {
      var next := Apply(env, s, run[0]);
      var log := LookupLog(env, s, run);
      WindowRecordsLookups(env, next, run[1..]);
      StepRecords(env, s, run[0]);
      ClockStarts(env, s);
      OneStep(env, s, run);
      if run[0].Lookup? {
        assert log[1..] == LookupLog(env, next, run[1..]);
        RecordFront(s.cache.window, log);
      } else {
        assert log == LookupLog(env, next, run[1..]);
      }
    } else {
      NoStep(env, s);
    }
  }

  lemma OneStep(env: Env, s: Server, run: seq<Event>)
    requires Legal(env, s, run) && run != []
    ensures Exec(env, s, run) == Exec(env, Apply(env, s, run[0]), run[1..])
  {
    hide Apply, Enabled;
  }

  lemma NoStep(env: Env, s: Server)
    requires Legal(env, s, [])
    ensures Exec(env, s, []) == s
  {
  }

  lemma StepMovesForward(env: Env, s: Server, ev: Event)
    requires Sane(env, s) && Enabled(env, s, ev)
    ensures s.now <= Apply(env, s, ev).now
    ensures !ev.Advance? ==> Apply(env, s, ev).now == s.now
  {
    hide Keys.Key, Picks, TickCandidates, MayEvict, CacheModel.Get, CacheModel.GetStale, CacheModel.Set, Prune;
  }

  /** Over any run from a start: what windowStats sums at its end are the lookups of the last 15 minutes, served and
      not. */
  lemma WindowCountsLookups(env: Env, now: int, entries: map<string, Entry>, run: seq<Event>)
    requires Legal(env, Start(now, entries), run)
    ensures var end := Exec(env, Start(now, entries), run);
            var minute := end.now / 60_000_000_000;
            var log := LookupLog(env, Start(now, entries), run);
            && |end.cache.window| == 15
            && Window.SumHits(end.cache.window, minute - 15, 15) == Window.CountAfter(log, minute - 15, true)
            && Window.SumMisses(end.cache.window, minute - 15, 15) == Window.CountAfter(log, minute - 15, false)
  {
    hide Apply, Enabled, LookupLog, Exec, Served;
    var s := Start(now, entries);
    var log := LookupLog(env, s, run);
    LogInOrder(env, s, run);
    WindowRecordsLookups(env, s, run);
    RunMovesForward(env, s, run);
    ClockStarts(env, s);
    if log != [] {
      assert log[|log| - 1] in log;
    }
    Window.WindowIsLog(log, Exec(env, s, run).now / 60_000_000_000);
  }

  // ---------------------------------------------------------------------------
  // Usual names
  // ---------------------------------------------------------------------------

  predicate Ascending(days: seq<int>, low: int, high: int)
  {
    && (forall i :: 0 <= i < |days| ==> low <= days[i] <= high)
    && forall i, j :: 0 <= i < j < |days| ==> days[i] <= days[j]
  }

  lemma AscendingFront(day: int, days: seq<int>, low: int, high: int)
    requires Ascending(days, low, high) && day <= low && day <= high
    ensures Ascending(days, day, high) && Ascending([day] + days, day, high)
  {
    forall i | 0 < i <= |days|
      ensures ([day] + days)[i] == days[i - 1]
    {
    }
  }

  /** The days of the requests never decrease, between the start and the end of the run. */
  lemma {:induction false} DaysInOrder(env: Env, s: Server, k: string, run: seq<Event>)
    requires Legal(env, s, run)
    ensures Ascending(ServerRuns.AskedDays(env, s, k, run), LocalDay(s.now, env.zone),
                      LocalDay(Exec(env, s, run).now, env.zone))
    decreases |run|
  {
    hide Apply, Enabled, Sane, LocalDay;
    if run != [] {
      var next := Apply(env, s, run[0]);
      DaysInOrder(env, next, k, run[1..]);
      StepMovesForward(env, s, run[0]);
      RunMovesForward(env, s, run);
      LocalDayMonotone(s.now, next.now, env.zone);
      LocalDayMonotone(s.now, Exec(env, s, run).now, env.zone);
      OneStep(env, s, run);
      hide Ascending;
      AscendingFront(LocalDay(s.now, env.zone), ServerRuns.AskedDays(env, next, k, run[1..]),
                     LocalDay(next.now, env.zone), LocalDay(Exec(env, s, run).now, env.zone));
    }
  }

  /** Days recorded in order are all kept as they are. */
  lemma {:induction false} InsertInOrder(h: UsageDays.History, days: seq<int>)
    requires forall i :: 0 <= i < |days| ==> h.last <= days[i]
    requires forall i, j :: 0 <= i < j < |days| ==> days[i] <= days[j]
    ensures UsageDays.InsertAll(h, days).days == h.days + set d | d in days
    ensures UsageDays.InsertAll(h, days).last == if days == [] then h.last else days[|days| - 1]
    decreases |days|
  {
    if days != [] {
      InsertInOrder(UsageDays.Insert(h, days[0]), days[1..]);
      assert days == [days[0]] + days[1..];
    }
  }

  /** The days of the window ending today among the day a name came in and the days clients asked for it. */
  ghost function DaysInUse(first: int, asked: seq<int>, today: int, window: int): set<int>
  {
    set d | d in [first] + asked && today - window < d <= today
  }

  /** A name is usual exactly when clients asked for it on at least keep_min_days of the last keep_window_days days,
      the day it came in included, whatever refreshes and failures there were meanwhile. */
  lemma UsualIffAskedOften(env: Env, s: Server, q: Question, resp: Msg, victim: Option<string>, run: seq<Event>)
    requires Sane(env, s) && Enabled(env, s, Reply(q, resp, victim)) && QKey(q) !in s.cache.entries
    requires var entered := Apply(env, s, Reply(q, resp, victim));
             Legal(env, entered, run) && ServerRuns.StaysCached(env, entered, QKey(q), run)
    ensures var entered := Apply(env, s, Reply(q, resp, victim));
            var end := Exec(env, entered, run);
            var today := LocalDay(end.now, env.zone);
            var asked := ServerRuns.AskedDays(env, entered, QKey(q), run);
            && QKey(q) in end.cache.entries
            && (env.cfg.Usual(end.cache.entries[QKey(q)], end.now, env.zone)
                <==> |DaysInUse(LocalDay(s.now, env.zone), asked, today, env.cfg.keepWindowDays)|
                     >= env.cfg.keepMinDays)
  {
    var first := LocalDay(s.now, env.zone);
    var entered := Apply(env, s, Reply(q, resp, victim));
    assert first >= 0 && entered.now == s.now by { ServerRuns.EntersWithOneDay(env, s, q, resp, victim); }
    ServerRuns.DaysUsedSinceInsertion(env, s, q, resp, victim, run);
    hide Apply, Enabled, GoodClock, LocalDay, UsageDays.DaysUsed, Exec, Legal, ServerRuns.AskedDays,
         ServerRuns.StaysCached;
    var end := Exec(env, entered, run);
    var asked := ServerRuns.AskedDays(env, entered, QKey(q), run);
    DaysInOrder(env, entered, QKey(q), run);
    RunMovesForward(env, entered, run);
    LocalDayMonotone(s.now, end.now, env.zone);
    WindowOfDays(first, asked, LocalDay(end.now, env.zone), env.cfg.keepWindowDays);
  }

  lemma WindowOfDays(first: nat, asked: seq<int>, today: int, window: int)
    requires first <= today && Ascending(asked, first, today)
    ensures UsageDays.InWindow(UsageDays.InsertAll(UsageDays.History(first, {first}), asked), today, window)
            == DaysInUse(first, asked, today, window)
  {
    InsertInOrder(UsageDays.History(first, {first}), asked);
  }
}
