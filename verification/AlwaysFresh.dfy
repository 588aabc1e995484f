/** The refresher's promise: a usual name never goes cold, however long nobody asks for it. The
    prefetch window, the inheriting Set and Get's age test agree on max(TTL, max_age). */
module AlwaysFresh {
  import opened CacheInvariant
  import opened CacheModel
  import opened Clock
  import opened Dns
  import opened Entries
  import opened Options
  import opened RefreshModel
  import opened Server
  import Keys
  import UsageDays

  /** The tick the next refresh of k is measured from: the one before the current cycle while k's refresh
      is in flight, else the last. */
  function Base(s: Server, k: string): int
  {
    if k in s.jobs then s.prevTick else s.lastTick
  }

  function Deadline(env: Env, s: Server, k: string): int
  {
    Base(s, k) + MinWindow(env.interval)
  }

  function ServedUntil(env: Env, e: Entry): int
  {
    e.storedAt + env.cfg.Life(e)
  }

  /** The answer outlives the deadline by which its next refresh has come back. */
  ghost predicate Fresh(env: Env, s: Server, k: string)
  {
    && k in s.cache.entries && k !in s.failures
    && env.cfg.Life(s.cache.entries[k]) >= MinWindow(env.interval)
    && ServedUntil(env, s.cache.entries[k]) >= Deadline(env, s, k)
    && s.prevTick <= s.lastTick <= s.now <= Deadline(env, s, k)
  }

  /** What the environment does for k: the gap between two ticks plus the latency of a refresh never
      exceeds one and a half intervals; refreshes of k succeed; k is usual at every tick; no tick has
      more than 500 candidates; no insertion evicts k. */
  ghost predicate Timely(env: Env, s: Server, k: string, ev: Event)
    requires Sane(env, s)
  {
    match ev
    case Advance(to) => to <= Deadline(env, s, k)
    case Tick(_) =>
      && k in s.cache.entries && env.cfg.Usual(s.cache.entries[k], s.now, env.zone)
      && |TickCandidates(env, s)| <= MAX_REFRESH_PER_CYCLE
    case RefreshFailed(key) => key != k
    case Reply(_, _, victim) => victim != Some(k)
    case Refreshed(_, _, victim) => victim != Some(k)
    case _ => true
  }

  ghost predicate TimelyRun(env: Env, s: Server, k: string, run: seq<Event>)
    requires Legal(env, s, run)
    decreases |run|
  {
    run == [] || (Timely(env, s, k, run[0]) && TimelyRun(env, Apply(env, s, run[0]), k, run[1..]))
  }

  /** A tick that leaves k alone leaves it with more than a window to live. */
  lemma NotPickedOutlives(env: Env, s: Server, k: string, picked: seq<Candidate>)
    requires Sane(env, s) && Enabled(env, s, Tick(picked)) && Timely(env, s, k, Tick(picked))
    requires k !in s.failures && env.cfg.Life(s.cache.entries[k]) >= MinWindow(env.interval)
    requires k !in KeysOf(picked)
    ensures ServedUntil(env, s.cache.entries[k]) > s.now + MinWindow(env.interval)
  {
    hide UsageDays.DaysUsed, GoodClock, Picks, Scaled, Threshold;
    var e := s.cache.entries[k];
    var verdicts := TickVerdicts(env, s);
    var kept := KeepFailures(s.failures, s.cache.entries.Keys);
    assert verdicts[k] == Classify(env.cfg, env.zone, env.interval, kept, k, e, s.now);
    if verdicts[k].Due? {
      var c := CandidateOf(verdicts, s.cache.entries, k);
      assert k in DueKeys(verdicts) && c in TickCandidates(env, s);
      FewCandidatesAllPicked(TickCandidates(env, s), picked, c);
    }
    var life := env.cfg.Life(e);
    NotDueOutlivesWindow(life, Scaled(life, e.hitCount), MinWindow(env.interval), e.storedAt + life - s.now);
  }

  lemma TickKeepsFresh(env: Env, s: Server, k: string, picked: seq<Candidate>)
    requires Sane(env, s) && Enabled(env, s, Tick(picked)) && Timely(env, s, k, Tick(picked))
    requires Fresh(env, s, k) && HistoryInOrder(s.cache.entries[k], env.zone)
    ensures Fresh(env, Apply(env, s, Tick(picked)), k)
  {
    if Unused(env.cfg, s.cache.entries[k], s.now) {
      UnusedIsCold(env.cfg, env.zone, s.cache.entries[k], s.now);
    }
    hide UsageDays.DaysUsed, GoodClock, Picks, Unused, TickCandidates;
    if k !in KeysOf(picked) {
      NotPickedOutlives(env, s, k, picked);
    }
  }

  /** A new answer for k lives for at least a window from now. */
  lemma SetKeepsFresh(env: Env, s: State, k: string, q: Question, resp: Msg, given: nat, now: int,
                      victim: Option<string>)
    requires env.Valid() && k in s.entries && victim != Some(k)
    requires MinWindow(env.interval) <= Max(env.cfg.ttlMin, env.cfg.maxAge)
    ensures var after := Set(env.cfg, env.zone, s, q, resp, given, now, victim).entries;
            && k in after
            && if QKey(q) == k then
                 && after[k].storedAt == now
                 && env.cfg.Life(after[k]) >= MinWindow(env.interval)
               else after[k] == s.entries[k]
  {
    NewEntryKey(env.cfg, env.zone, q, resp, given, now);
    ClampTtlInRange(env.cfg, OriginalTtl(resp, given) * SECOND);
    hide Keys.Key, UsageDays.Pack, OriginalTtl, ClampTtl;
  }

  lemma StepKeepsFresh(env: Env, s: Server, k: string, ev: Event)
    requires Sane(env, s) && Enabled(env, s, ev) && Timely(env, s, k, ev)
    requires Fresh(env, s, k) && HistoryInOrder(s.cache.entries[k], env.zone)
    requires MinWindow(env.interval) <= Max(env.cfg.ttlMin, env.cfg.maxAge)
    ensures Fresh(env, Apply(env, s, ev), k)
  {
    hide Keys.Key, GoodClock, CacheModel.Set, MayEvict, Picks, TickCandidates, UsageDays.Mark, Window.Record,
         NoteFailure;
    match ev
    case Tick(picked) => TickKeepsFresh(env, s, k, picked);
    case Reply(q, resp, victim) =>
      SetKeepsFresh(env, s.cache, k, q, resp, AnswerTtl(resp), s.now, victim);
    case Refreshed(q, resp, victim) =>
      SetKeepsFresh(env, s.cache, k, q, resp, RefreshTtl(resp), s.now, victim);
    case RefreshFailed(key) =>
      OtherFailure(env, s.failures, key, s.now, k);
    case _ =>
  }

  lemma OtherFailure(env: Env, failures: map<string, Failure>, key: string, now: int, k: string)
    requires key != k && k !in failures
    ensures k !in NoteFailure(failures, env.interval, key, now)
  {
  }

  lemma FreshIsServed(env: Env, s: Server, k: string)
    requires Fresh(env, s, k)
    requires s.cache.entries[k].expiresAt == s.cache.entries[k].storedAt + s.cache.entries[k].cachedTtl
    ensures Hits(env.cfg, s.cache, k, s.now)
  {
    ServableUntilLife(env.cfg, s.cache.entries[k], s.now);
  }

  /** At every instant of the run a query for k would be a hit. */
  ghost predicate HitThroughout(env: Env, s: Server, k: string, run: seq<Event>)
    requires Legal(env, s, run)
    decreases |run|
  {
    && Hits(env.cfg, s.cache, k, s.now)
    && (run == [] || HitThroughout(env, Apply(env, s, run[0]), k, run[1..]))
  }

  /** Always fresh: over every run, with or without queries for k, in which ticks and refreshes keep time,
      an entry that stays usual is never missed. No backoff is assumed: refreshes that succeed never
      start one. */
  lemma {:induction false} UsualNamesStayFresh(env: Env, loaded: map<string, Entry>, s: Server, k: string,
                                               run: seq<Event>)
    requires Consistent(env, loaded, s) && Legal(env, s, run) && TimelyRun(env, s, k, run)
    requires Fresh(env, s, k)
    requires MinWindow(env.interval) <= Max(env.cfg.ttlMin, env.cfg.maxAge)
    ensures HitThroughout(env, s, k, run) && Fresh(env, Exec(env, s, run), k)
    decreases |run|
  {
    FreshIsServed(env, s, k);
    if run != [] {
      StepKeepsFresh(env, s, k, run[0]);
      StepKeepsConsistent(env, loaded, s, run[0]);
      UsualNamesStayFresh(env, loaded, Apply(env, s, run[0]), k, run[1..]);
    }
  }

  /** Or where it starts after a restart, when every loaded answer is overdue: right after the first refresh
      of k comes back. */
  lemma FreshAfterRefresh(env: Env, s: Server, q: Question, resp: Msg, victim: Option<string>)
    requires Sane(env, s) && Enabled(env, s, Refreshed(q, resp, victim))
    requires MinWindow(env.interval) <= Max(env.cfg.ttlMin, env.cfg.maxAge)
    requires s.prevTick <= s.lastTick <= s.now <= s.lastTick + MinWindow(env.interval)
    ensures Fresh(env, Apply(env, s, Refreshed(q, resp, victim)), QKey(q))
  {
    NewEntryKey(env.cfg, env.zone, q, resp, RefreshTtl(resp), s.now);
    ClampTtlInRange(env.cfg, OriginalTtl(resp, RefreshTtl(resp)) * SECOND);
    hide Keys.Key, UsageDays.Pack, OriginalTtl, ClampTtl, MayEvict, GoodClock;
  }

  /** Where it starts: right after an answer for k arrives, between a tick and its deadline. */
  lemma FreshAfterReply(env: Env, s: Server, q: Question, resp: Msg, victim: Option<string>)
    requires Sane(env, s) && Enabled(env, s, Reply(q, resp, victim))
    requires MinWindow(env.interval) <= Max(env.cfg.ttlMin, env.cfg.maxAge)
    requires QKey(q) !in s.failures && QKey(q) !in s.jobs
    requires s.prevTick <= s.lastTick <= s.now <= s.lastTick + MinWindow(env.interval)
    ensures Fresh(env, Apply(env, s, Reply(q, resp, victim)), QKey(q))
  {
    NewEntryKey(env.cfg, env.zone, q, resp, AnswerTtl(resp), s.now);
    ClampTtlInRange(env.cfg, OriginalTtl(resp, AnswerTtl(resp)) * SECOND);
    hide Keys.Key, UsageDays.Pack, OriginalTtl, ClampTtl, MayEvict, GoodClock;
  }
}
