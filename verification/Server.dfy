/** The server as one state machine over its clock: client queries, upstream replies, the refresher's
    ticks and the replies to its refreshes, in any order. A lookup, an insertion and a refresher cycle
    each happen at one instant; upstream replies are events that may come at any later time. */
module Server {
  import opened CacheModel
  import opened Clock
  import opened Dns
  import opened Entries
  import opened Options
  import opened RefreshModel
  import opened Window
  import Keys
  import UsageDays

  datatype Env = Env(cfg: Config, zone: int, interval: int)
  {
    predicate Valid()
    {
      cfg.Normal() && cfg.ttlMin <= cfg.ttlMax && interval > 0
    }
  }

  /** `jobs`: keys the last cycle selected and whose refresh has not ended. Handlers are counted by where
      they are: before the end of Get, waiting for the upstream, or after its failure. */
  datatype Server = Server(now: int, cache: State, failures: map<string, Failure>, jobs: set<string>,
                           lastTick: int, prevTick: int, looking: nat, resolving: nat, failed: nat)

  datatype Event =
    | Advance(to: int)
    | Query
    | Lookup(key: string)
    | Reply(q: Question, resp: Msg, victim: Option<string>)
    | Answer
    | Fail
    | Stale(key: string)
    | Tick(picked: seq<Candidate>)
    | Refreshed(q: Question, resp: Msg, victim: Option<string>)
    | RefreshFailed(key: string)

  /** A server that starts with these entries: all counters at zero, nothing in flight, no tick yet. */
  function Start(now: int, entries: map<string, Entry>): Server
  {
    Server(now, State(entries, Counters(0, 0, 0, 0, 0, 0), EmptyWindow()), map[], {}, now, now, 0, 0, 0)
  }

  /** Instants the source can represent, with a day number the usage word can hold. */
  predicate GoodClock(env: Env, now: int)
  {
    FitsWord(now, env.zone) && now < MAX_INT64 && 0 <= Unix(now) + env.zone
  }

  predicate Sane(env: Env, s: Server)
  {
    env.Valid() && GoodClock(env, s.now) && |s.cache.window| == WINDOW_MINUTES
  }

  /** NOERROR and NXDOMAIN are cached, truncated replies never (handler.go). */
  predicate IsCacheable(resp: Msg)
  {
    !resp.truncated && (resp.rcode == RCODE_SUCCESS || resp.rcode == RCODE_NAME_ERROR)
  }

  function AnswerTtl(resp: Msg): nat
  {
    if resp.answer == [] then 0 else resp.answer[0].ttl
  }

  /** The TTL refreshEntry passes on. */
  function RefreshTtl(resp: Msg): nat
  {
    if AnswerTtl(resp) == 0 then 60 else AnswerTtl(resp)
  }

  function QKey(q: Question): string
  {
    Keys.Key(q.name, q.qtype)
  }

  function TickVerdicts(env: Env, s: Server): map<string, Verdict>
    requires env.Valid()
  {
    Verdicts(env.cfg, env.zone, env.interval, KeepFailures(s.failures, s.cache.entries.Keys), s.cache.entries, s.now)
  }

  function TickCandidates(env: Env, s: Server): set<Candidate>
    requires env.Valid()
  {
    Candidates(TickVerdicts(env, s), s.cache.entries)
  }

  function KeysOf(picked: seq<Candidate>): set<string>
  {
    set c | c in picked :: c.key
  }

  ghost predicate Enabled(env: Env, s: Server, ev: Event)
    requires Sane(env, s)
  {
    match ev
    case Advance(to) => s.now <= to && GoodClock(env, to)
    case Query => true
    case Lookup(_) => s.looking > 0
    case Reply(q, resp, victim) =>
      IsCacheable(resp) && MayEvict(env.cfg, s.cache.entries, QKey(q), s.now, victim)
    case Answer => s.resolving > 0
    case Fail => s.resolving > 0
    case Stale(_) => s.failed > 0
    case Tick(picked) => s.jobs == {} && Picks(TickCandidates(env, s), picked)
    case Refreshed(q, resp, victim) =>
      && QKey(q) in s.jobs && resp.rcode == RCODE_SUCCESS
      && MayEvict(env.cfg, s.cache.entries, QKey(q), s.now, victim)
    case RefreshFailed(key) => key in s.jobs
  }

  /** pruneUnused */
  function Prune(cfg: Config, entries: map<string, Entry>, now: int): map<string, Entry>
  {
    map k | k in entries && !Unused(cfg, entries[k], now) :: entries[k]
  }

  function Apply(env: Env, s: Server, ev: Event): Server
    requires Sane(env, s)
  {
    var c := s.cache.counters;
    match ev
    case Advance(to) => s.(now := to)
    case Query => s.(looking := s.looking + 1, cache := s.cache.(counters := c.(totalQueries := c.totalQueries + 1)))
    case Lookup(key) =>
      s.(cache := Get(env.cfg, env.zone, s.cache, key, s.now),
         looking := if s.looking > 0 then s.looking - 1 else 0,
         resolving := s.resolving + if Hits(env.cfg, s.cache, key, s.now) then 0 else 1)
    case Reply(q, resp, victim) =>
      s.(cache := Set(env.cfg, env.zone, s.cache, q, resp, AnswerTtl(resp), s.now, victim))
    case Answer => s.(resolving := if s.resolving > 0 then s.resolving - 1 else 0)
    case Fail =>
      s.(resolving := if s.resolving > 0 then s.resolving - 1 else 0, failed := s.failed + 1,
         cache := s.cache.(counters := c.(errors := c.errors + 1)))
    case Stale(key) =>
      s.(failed := if s.failed > 0 then s.failed - 1 else 0, cache := GetStale(env.cfg, s.cache, key, s.now))
    case Tick(picked) =>
      var ticked := s.(lastTick := s.now, prevTick := s.lastTick);
      if s.cache.entries == map[] then ticked
      else
        ticked.(failures := KeepFailures(s.failures, s.cache.entries.Keys),
                cache := s.cache.(entries := Prune(env.cfg, s.cache.entries, s.now)),
                jobs := KeysOf(picked))
    case Refreshed(q, resp, victim) =>
      s.(failures := s.failures - {QKey(q)}, jobs := s.jobs - {QKey(q)},
         cache := Set(env.cfg, env.zone, s.cache, q, resp, RefreshTtl(resp), s.now, victim))
    case RefreshFailed(key) =>
      s.(failures := NoteFailure(s.failures, env.interval, key, s.now), jobs := s.jobs - {key})
  }

  lemma StepKeepsSane(env: Env, s: Server, ev: Event)
    requires Sane(env, s) && Enabled(env, s, ev)
    ensures Sane(env, Apply(env, s, ev))
  {
    hide UsageDays.Mark, Keys.Key, NewEntry, Picks, MayEvict, Asked;
  }

  ghost predicate Legal(env: Env, s: Server, run: seq<Event>)
    decreases |run|
  {
    && Sane(env, s)
    && (run == [] || (Enabled(env, s, run[0]) && Legal(env, Apply(env, s, run[0]), run[1..])))
  }

  ghost function Exec(env: Env, s: Server, run: seq<Event>): Server
    requires Legal(env, s, run)
    decreases |run|
  {
    if run == [] then s else Exec(env, Apply(env, s, run[0]), run[1..])
  }

  /** A run by its first step. */
  lemma RunThen(env: Env, s: Server, ev: Event, rest: seq<Event>)
    requires Sane(env, s) && Enabled(env, s, ev) && Legal(env, Apply(env, s, ev), rest)
    ensures Legal(env, s, [ev] + rest) && Exec(env, s, [ev] + rest) == Exec(env, Apply(env, s, ev), rest)
  {
    hide Sane, Enabled, Apply;
    assert ([ev] + rest)[1..] == rest;
  }

  /** One run after another. */
  lemma {:induction false} RunAfterRun(env: Env, s: Server, first: seq<Event>, second: seq<Event>)
    requires Legal(env, s, first) && Legal(env, Exec(env, s, first), second)
    ensures Legal(env, s, first + second)
    ensures Exec(env, s, first + second) == Exec(env, Exec(env, s, first), second)
    decreases |first|
  {
    hide Sane, Enabled, Apply;
    if first == [] {
      assert first + second == second;
    } else {
      assert (first + second)[1..] == first[1..] + second;
      RunAfterRun(env, Apply(env, s, first[0]), first[1..], second);
    }
  }
}
