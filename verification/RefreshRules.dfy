/** What the refresher decides, in the source's own fields and numbers: percentages of a life, nanoseconds, and
    the order of candidates. Nothing here is stated through the functions that compute it. */
module RefreshRules {
  import opened Clock
  import opened Dns
  import opened Entries
  import opened Options
  import opened RefreshModel
  import opened Server
  import CacheModel
  import Keys
  import UsageDays

  // ---------------------------------------------------------------------------
  // The verdict of the selection
  // ---------------------------------------------------------------------------

  function DaysCounted(cfg: Config, zone: int, e: Entry, now: int): int
    requires cfg.Normal()
  {
    UsageDays.DaysUsed(e.usedDays, LocalDay(now, zone), cfg.keepWindowDays)
  }

  /** The longer of TTL and max_age. */
  function LifeOf(cfg: Config, e: Entry): int
  {
    if e.cachedTtl >= cfg.maxAge then e.cachedTtl else cfg.maxAge
  }

  function Percent(hits: nat): int
  {
    if hits >= 100 then 30 else if hits >= 20 then 20 else if hits >= 5 then 15 else 10
  }

  /** A share of a life, rounded down, against a remaining time. */
  lemma ShareInPercent(life: int, hits: nat, remaining: int)
    ensures remaining <= Scaled(life, hits) <==> 100 * remaining <= Percent(hits) * life
  {
    var share := life as real * RefreshThreshold(hits);
    assert share == (Percent(hits) * life) as real / 100.0;
    assert remaining <= share.Floor <==> remaining as real <= share;
    assert remaining as real <= share <==> (100 * remaining) as real <= (Percent(hits) * life) as real;
  }

  /** The verdict on every entry, exactly: cold below keep_min_days; else in backoff before the next try; else
      overdue past its life; else due within one and a half intervals or within 30, 20, 15 or 10 percent of
      its life, by hits, but never before it was fetched; else left alone. */
  lemma VerdictInNumbers(cfg: Config, zone: int, interval: int, failures: map<string, Failure>, key: string, e: Entry,
                         now: int)
    requires cfg.Normal() && interval > 0
    ensures var v := Classify(cfg, zone, interval, failures, key, e, now);
            var life := LifeOf(cfg, e);
            var remaining := e.storedAt + life - now;
            var usual := DaysCounted(cfg, zone, e, now) >= cfg.keepMinDays;
            var waits := key in failures && now < failures[key].nextTry;
            var soon := 2 * remaining <= 3 * interval || 100 * remaining <= Percent(e.hitCount) * life;
            && (v == Cold <==> !usual)
            && (v == InBackoff <==> usual && waits)
            && (v == Due(true) <==> usual && !waits && remaining <= 0)
            && (v == Due(false) <==> usual && !waits && 0 < remaining <= life && soon)
            && (v == NotDue <==> usual && !waits && remaining > 0 && !(remaining <= life && soon))
  {
    hide UsageDays.DaysUsed, Scaled;
    var life := LifeOf(cfg, e);
    ShareInPercent(life, e.hitCount, e.storedAt + life - now);
  }

  // ---------------------------------------------------------------------------
  // The order of the refreshes
  // ---------------------------------------------------------------------------

  /** Whatever Picks allows: overdue candidates come first, in each class hits never increase, and a candidate is
      left out only when 500 are in, all of them in front of it. */
  lemma PicksInOrder(cands: set<Candidate>, picked: seq<Candidate>)
    requires Picks(cands, picked)
    ensures |picked| == (if |cands| <= 500 then |cands| else 500)
    ensures forall i, j :: 0 <= i < j < |picked| && picked[j].overdue ==> picked[i].overdue
    ensures forall i, j :: 0 <= i < j < |picked| && picked[i].overdue == picked[j].overdue ==>
              picked[i].hits >= picked[j].hits
    ensures forall c, p :: c in cands && c !in picked && p in picked && c.overdue ==> p.overdue && p.hits >= c.hits
    ensures forall c, p :: c in cands && c !in picked && p in picked && !c.overdue && !p.overdue ==> p.hits >= c.hits
  {
    forall i, j | 0 <= i < j < |picked|
      ensures !Outranks(picked[j], picked[i])
    {
    }
  }

  /** The candidates of a tick: the due entries, each with its own hits, overdue when its life is over. */
  lemma CandidatesInNumbers(env: Env, s: Server, c: Candidate)
    requires env.Valid() && c in TickCandidates(env, s)
    ensures c.key in s.cache.entries
    ensures var e := s.cache.entries[c.key];
            && c.hits == e.hitCount && (c.overdue <==> e.storedAt + LifeOf(env.cfg, e) <= s.now)
            && DaysCounted(env.cfg, env.zone, e, s.now) >= env.cfg.keepMinDays
            && (c.key in s.failures ==> s.failures[c.key].nextTry <= s.now)
  {
    hide UsageDays.DaysUsed, Scaled, Threshold, Classify;
    var verdicts := TickVerdicts(env, s);
    var e := s.cache.entries[c.key];
    var kept := KeepFailures(s.failures, s.cache.entries.Keys);
    assert verdicts[c.key] == Classify(env.cfg, env.zone, env.interval, kept, c.key, e, s.now);
    VerdictInNumbers(env.cfg, env.zone, env.interval, kept, c.key, e, s.now);
  }

  // ---------------------------------------------------------------------------
  // Backoff ends
  // ---------------------------------------------------------------------------

  /** Once its next try has come, a usual entry whose life is over is a candidate again, and refreshed when the
      tick has no more than 500 of them. */
  lemma BackoffEnds(env: Env, s: Server, picked: seq<Candidate>, k: string)
    requires Sane(env, s) && Enabled(env, s, Tick(picked)) && k in s.cache.entries
    requires k in s.failures && s.failures[k].nextTry <= s.now
    requires var e := s.cache.entries[k];
             && DaysCounted(env.cfg, env.zone, e, s.now) >= env.cfg.keepMinDays
             && e.storedAt + LifeOf(env.cfg, e) <= s.now
    ensures TickVerdicts(env, s)[k] == Due(true)
    ensures |TickCandidates(env, s)| <= 500 ==> k in KeysOf(picked)
  {
    hide UsageDays.DaysUsed, Scaled, Threshold, Classify, Picks, GoodClock, DaysCounted, LifeOf;
    var verdicts := TickVerdicts(env, s);
    var kept := KeepFailures(s.failures, s.cache.entries.Keys);
    var e := s.cache.entries[k];
    assert verdicts[k] == Classify(env.cfg, env.zone, env.interval, kept, k, e, s.now);
    VerdictInNumbers(env.cfg, env.zone, env.interval, kept, k, e, s.now);
    if |TickCandidates(env, s)| <= 500 {
      var c := CandidateOf(verdicts, s.cache.entries, k);
      assert k in DueKeys(verdicts) && c in TickCandidates(env, s);
      FewCandidatesAllPicked(TickCandidates(env, s), picked, c);
    }
  }

  /** For every interval, overflow or not, a wait is positive and at most 30 minutes. */
  lemma WaitWithinHalfHour(interval: int, count: nat)
    ensures 0 < Wait(interval, count) <= 1_800_000_000_000
  {
    hide Wrap64, Pow2;
  }

  /** At the default interval of 30 seconds: one minute, doubling, then 30 minutes from the sixth failure on. */
  lemma DefaultWaits(count: nat)
    requires count >= 1
    ensures Wait(30_000_000_000, count)
            == if count == 1 then 60_000_000_000 else if count == 2 then 120_000_000_000
               else if count == 3 then 240_000_000_000 else if count == 4 then 480_000_000_000
               else if count == 5 then 960_000_000_000 else 1_800_000_000_000
  {
    WaitExact(30_000_000_000, count);
    var c := Min(count, BACKOFF_SHIFT);
    assert Pow2(1) == 2 && Pow2(2) == 4 && Pow2(3) == 8 && Pow2(4) == 16 && Pow2(5) == 32 && Pow2(6) == 64;
    if c >= 6 {
      Pow2Monotone(6, c);
      MulMonotone(30_000_000_000, Pow2(6), Pow2(c));
    }
  }

  /** A failed refresh counts one more failure of that key and sets its next try; no other key's changes. */
  lemma FailureInNumbers(env: Env, s: Server, key: string)
    requires Sane(env, s) && Enabled(env, s, RefreshFailed(key)) && env.interval < 0x20_0000_0000_0000
    ensures var after := Apply(env, s, RefreshFailed(key));
            && after.cache == s.cache && after.failures.Keys == s.failures.Keys + {key}
            && (forall k :: k in s.failures && k != key ==> after.failures[k] == s.failures[k])
            && after.failures[key].count == (if key in s.failures then s.failures[key].count + 1 else 1)
            && var n := if after.failures[key].count <= 10 then after.failures[key].count else 10;
               var wait := env.interval * Pow2(n);
               after.failures[key].nextTry - s.now == if wait <= 1_800_000_000_000 then wait else 1_800_000_000_000
  {
    hide GoodClock, Pow2, Wait;
    WaitExact(env.interval, if key in s.failures then s.failures[key].count + 1 else 1);
  }

  /** A success forgets the key's failures and no other's. */
  lemma SuccessForgets(env: Env, s: Server, q: Question, resp: Msg, victim: Option<string>)
    requires Sane(env, s) && Enabled(env, s, Refreshed(q, resp, victim))
    ensures Apply(env, s, Refreshed(q, resp, victim)).failures == s.failures - {QKey(q)}
  {
  }

  /** The instant of the last failed refresh of k in the run, or the one known before it. */
  ghost function LastFailure(env: Env, s: Server, k: string, run: seq<Event>, before: Option<int>): Option<int>
    requires Legal(env, s, run)
    decreases |run|
  {
    if run == [] then before
    else
      var last := if run[0] == RefreshFailed(k) then Some(s.now) else before;
      LastFailure(env, Apply(env, s, run[0]), k, run[1..], last)
  }

  predicate WaitsFrom(s: Server, k: string, last: Option<int>)
  {
    k in s.failures ==> last.Some? && last.value < s.failures[k].nextTry <= last.value + 1_800_000_000_000
  }

  lemma StepKeepsWaits(env: Env, s: Server, k: string, ev: Event, last: Option<int>)
    requires Sane(env, s) && Enabled(env, s, ev) && WaitsFrom(s, k, last)
    ensures WaitsFrom(Apply(env, s, ev), k, if ev == RefreshFailed(k) then Some(s.now) else last)
  {
    hide Keys.Key, Wait, GoodClock, CacheModel.Get, CacheModel.GetStale, CacheModel.Set, CacheModel.MayEvict, Prune,
         Picks, TickCandidates;
    match ev
    case RefreshFailed(key) =>
      WaitWithinHalfHour(env.interval, if key in s.failures then s.failures[key].count + 1 else 1);
    case _ =>
  }

  lemma {:induction false} RunKeepsWaits(env: Env, s: Server, k: string, run: seq<Event>, last: Option<int>)
    requires Legal(env, s, run) && WaitsFrom(s, k, last)
    ensures WaitsFrom(Exec(env, s, run), k, LastFailure(env, s, k, run, last))
    decreases |run|
  {
    hide Apply, Enabled, Sane, WaitsFrom;
    if run != [] {
      StepKeepsWaits(env, s, k, run[0], last);
      RunKeepsWaits(env, Apply(env, s, run[0]), k, run[1..], if run[0] == RefreshFailed(k) then Some(s.now) else last);
    }
  }

  /** Over any run from a start without failures: a key whose refresh never failed, or last failed 30 minutes ago or
      earlier, is not in backoff at a tick. */
  lemma NoBackoffAfterHalfHour(env: Env, s: Server, k: string, run: seq<Event>)
    requires Legal(env, s, run) && s.failures == map[] && k in Exec(env, s, run).cache.entries
    requires var last := LastFailure(env, s, k, run, None);
             last.None? || last.value + 1_800_000_000_000 <= Exec(env, s, run).now
    ensures env.Valid() && TickVerdicts(env, Exec(env, s, run))[k] != InBackoff
  {
    hide Exec, Legal, LastFailure, UsageDays.DaysUsed, Scaled, Threshold, Classify, GoodClock;
    var end := Exec(env, s, run);
    RunKeepsWaits(env, s, k, run, None);
    ValidEnv(env, s, run);
    var kept := KeepFailures(end.failures, end.cache.entries.Keys);
    var e := end.cache.entries[k];
    assert TickVerdicts(env, end)[k] == Classify(env.cfg, env.zone, env.interval, kept, k, e, end.now);
    VerdictInNumbers(env.cfg, env.zone, env.interval, kept, k, e, end.now);
  }

  lemma ValidEnv(env: Env, s: Server, run: seq<Event>)
    requires Legal(env, s, run)
    ensures env.Valid()
  {
  }

  // ---------------------------------------------------------------------------
  // What a tick drops
  // ---------------------------------------------------------------------------

  /** A tick drops exactly the entries past their expiry that nobody asked for in the keep window, leaves every other
      as it is, and keeps failures exactly for the keys that were cached. */
  lemma TickDropsInNumbers(env: Env, s: Server, picked: seq<Candidate>, k: string)
    requires Sane(env, s) && Enabled(env, s, Tick(picked)) && k in s.cache.entries
    ensures var e := s.cache.entries[k];
            var after := Apply(env, s, Tick(picked));
            && (k !in after.cache.entries
                <==> e.expiresAt < s.now && s.now - e.lastHitAt > env.cfg.keepWindowDays * 86_400_000_000_000)
            && (k in after.cache.entries ==> after.cache.entries[k] == e)
            && after.cache.entries.Keys <= s.cache.entries.Keys
            && after.failures.Keys == s.failures.Keys * s.cache.entries.Keys
            && (forall f :: f in after.failures ==> after.failures[f] == s.failures[f])
            && (forall p :: p in after.jobs <==> exists i :: 0 <= i < |picked| && picked[i].key == p)
  {
    hide Picks, TickCandidates, GoodClock;
  }
}
