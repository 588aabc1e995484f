/** The query handler of handler.go: where a reply comes from, what it carries, and what answering does
    to the cache. Truncation to the client's size is the DNS library's and is not modelled. */
module Handler {
  import opened CacheModel
  import opened Clock
  import opened Dns
  import opened Entries
  import opened Options
  import opened Window
  import Caches
  import Keys
  import Server
  import UsageDays

  const MAX_UDP_SIZE: nat := 1232
  const MIN_MSG_SIZE: nat := 512
  const LATE_TTL: nat := 30

  /** The clock reads of one call: in Get, at the expiry check or after the upstream, and at the TTL. */
  datatype Times = Times(get: int, check: int, ttl: int)

  datatype Source =
    | FromCache(e: Entry)
    | FromUpstream(resp: Msg)
    | FromStale(e: Entry)
    | ServFail

  // ---------------------------------------------------------------------------
  // The reply
  // ---------------------------------------------------------------------------

  /** ttlForEntry: the whole seconds left, or 30 past the expiry. */
  function TtlForEntry(e: Entry, now: int): nat
  {
    if e.expiresAt - now <= 0 then LATE_TTL else (e.expiresAt - now) / SECOND
  }

  /** The last OPT record, as IsEdns0 finds it. */
  function FindOpt(extra: seq<RR>): Option<RR>
  {
    if extra == [] then None
    else if extra[|extra| - 1].rrtype == TYPE_OPT then Some(extra[|extra| - 1])
    else FindOpt(extra[..|extra| - 1])
  }

  /** The size the client can take and the OPT record that answers its own. */
  function ClientOpt(extra: seq<RR>): seq<RR>
  {
    match FindOpt(extra)
    case None => []
    case Some(opt) =>
      var asked := if opt.data.Opt? then opt.data.udpSize else 0;
      var size := if asked > MIN_MSG_SIZE then asked else MIN_MSG_SIZE;
      var size := if size > MAX_UDP_SIZE then MAX_UDP_SIZE else size;
      [RR(".", TYPE_OPT, 0, Opt(size, opt.data.Opt? && opt.data.dnssecOk))]
  }

  /** respond: the reply's own rcode is kept, the upstream's OPT is not. */
  function Respond(req: Msg, resp: Msg): Msg
    requires req.question != []
  {
    resp.(id := req.id, question := [req.question[0]],
          extra := (if FindOpt(resp.extra).Some? then WithoutOpt(resp.extra) else resp.extra) + ClientOpt(req.extra))
  }

  function ServerFailure(req: Msg): Msg
    requires req.question != []
  {
    Msg(req.id, RCODE_SERVER_FAILURE, false, [req.question[0]], [], [], [])
  }

  // ---------------------------------------------------------------------------
  // The cascade
  // ---------------------------------------------------------------------------

  function QueryKey(req: Msg): string
    requires req.question != []
  {
    Keys.Key(req.question[0].name, req.question[0].qtype)
  }

  /** Where the reply comes from after a miss: the upstream, else a stale entry, else nowhere. */
  function Fallback(cfg: Config, s: State, key: string, now: int, upstream: Option<Msg>): Source
  {
    if upstream.Some? then FromUpstream(upstream.value)
    else if StaleHits(cfg, s, key, now) then FromStale(s.entries[key])
    else ServFail
  }

  function AfterFallback(cfg: Config, zone: int, s: State, q: Question, now: int, upstream: Option<Msg>,
                         victim: Option<string>): State
  {
    match upstream
    case None => GetStale(cfg, Erred(s), Keys.Key(q.name, q.qtype), now)
    case Some(resp) =>
      if Server.IsCacheable(resp) then Set(cfg, zone, s, q, resp, Server.AnswerTtl(resp), now, victim) else s
  }

  function Looked(cfg: Config, zone: int, s: State, req: Msg, now: int): State
    requires req.question != [] && |s.window| == WINDOW_MINUTES && now >= 0
  {
    Get(cfg, zone, Queried(s), QueryKey(req), now)
  }

  /** The cache first; after a miss what the cache holds by then, as `later`. */
  function Decide(cfg: Config, zone: int, s: State, later: State, req: Msg, t: Times, upstream: Option<Msg>): Source
    requires req.question != []
  {
    var key := QueryKey(req);
    if Hits(cfg, s, key, t.get) then FromCache(Asked(cfg, zone, s.entries[key], t.get))
    else Fallback(cfg, later, key, t.check, upstream)
  }

  /** The cache afterwards. A late answer is also asked for again in the background, which is a separate
      insertion later on. */
  function After(cfg: Config, zone: int, s: State, req: Msg, t: Times, upstream: Option<Msg>,
                 victim: Option<string>): State
    requires req.question != [] && |s.window| == WINDOW_MINUTES && t.get >= 0
  {
    var looked := Looked(cfg, zone, s, req, t.get);
    if Hits(cfg, s, QueryKey(req), t.get) then looked
    else AfterFallback(cfg, zone, looked, req.question[0], t.check, upstream, victim)
  }

  function Render(req: Msg, source: Source, now: int): Msg
    requires req.question != []
  {
    match source
    case FromCache(e) => Respond(req, SetTtl(e.response, TtlForEntry(e, now)))
    case FromUpstream(resp) => Respond(req, resp)
    case FromStale(e) => Respond(req, SetTtl(e.response, LATE_TTL))
    case ServFail => ServerFailure(req)
  }

  /** What the insertion after a miss may evict. */
  ghost predicate MayDisplace(cfg: Config, s: State, key: string, now: int, upstream: Option<Msg>,
                              victim: Option<string>)
  {
    if upstream.Some? && Server.IsCacheable(upstream.value) then MayEvict(cfg, s.entries, key, now, victim)
    else victim == None
  }

  // ---------------------------------------------------------------------------
  // A call as steps of the server
  // ---------------------------------------------------------------------------

  /** The events of one call after a miss. */
  function StepsAfterMiss(req: Msg, now: int, upstream: Option<Msg>, victim: Option<string>): seq<Server.Event>
    requires req.question != []
  {
    match upstream
    case None => [Server.Fail] + ([Server.Stale(QueryKey(req))] + [])
    case Some(resp) =>
      if Server.IsCacheable(resp) then [Server.Reply(req.question[0], resp, victim)] + ([Server.Answer] + [])
      else [Server.Answer] + []
  }

  function Steps(cfg: Config, s: State, req: Msg, t: Times, upstream: Option<Msg>,
                 victim: Option<string>): seq<Server.Event>
    requires req.question != []
  {
    var key := QueryKey(req);
    [Server.Query]
    + ([Server.Lookup(key)]
       + if Hits(cfg, s, key, t.get) then []
         else [Server.Advance(t.check)] + StepsAfterMiss(req, t.check, upstream, victim))
  }

  lemma MissIsRun(env: Server.Env, s: Server.Server, req: Msg, upstream: Option<Msg>, victim: Option<string>)
    requires Server.Sane(env, s) && req.question != [] && s.resolving > 0
    requires MayDisplace(env.cfg, s.cache, QueryKey(req), s.now, upstream, victim)
    ensures var run := StepsAfterMiss(req, s.now, upstream, victim);
            && Server.Legal(env, s, run)
            && var end := Server.Exec(env, s, run);
               end == s.(resolving := s.resolving - 1,
                         cache := AfterFallback(env.cfg, env.zone, s.cache, req.question[0], s.now, upstream, victim))
  {
    hide Keys.Key, Server.Sane, MayEvict, CacheModel.Set, CacheModel.GetStale, Server.IsCacheable;
    match upstream
    case None =>
      var failed := Server.Apply(env, s, Server.Fail);
      Server.StepKeepsSane(env, s, Server.Fail);
      Server.StepKeepsSane(env, failed, Server.Stale(QueryKey(req)));
      Server.RunThen(env, failed, Server.Stale(QueryKey(req)), []);
      Server.RunThen(env, s, Server.Fail, [Server.Stale(QueryKey(req))] + []);
    case Some(resp) =>
      if Server.IsCacheable(resp) {
        var reply := Server.Reply(req.question[0], resp, victim);
        var stored := Server.Apply(env, s, reply);
        Server.StepKeepsSane(env, s, reply);
        Server.StepKeepsSane(env, stored, Server.Answer);
        Server.RunThen(env, stored, Server.Answer, []);
        Server.RunThen(env, s, reply, [Server.Answer] + []);
      } else {
        Server.StepKeepsSane(env, s, Server.Answer);
        Server.RunThen(env, s, Server.Answer, []);
      }
  }

  /** One call of ServeDNS is a run of the server's state machine, and leaves no handler under way: what is
      proved of all runs holds of every sequence of calls. */
  lemma CallIsRun(env: Server.Env, s: Server.Server, req: Msg, t: Times, upstream: Option<Msg>, victim: Option<string>)
    requires Server.Sane(env, s) && req.question != [] && t.get == s.now <= t.check && Server.GoodClock(env, t.check)
    requires if Hits(env.cfg, s.cache, QueryKey(req), t.get) then victim == None
             else MayDisplace(env.cfg, Looked(env.cfg, env.zone, s.cache, req, t.get), QueryKey(req), t.check, upstream,
                              victim)
    ensures var run := Steps(env.cfg, s.cache, req, t, upstream, victim);
            && Server.Legal(env, s, run)
            && var end := Server.Exec(env, s, run);
               && end.cache == After(env.cfg, env.zone, s.cache, req, t, upstream, victim)
               && (end.looking, end.resolving, end.failed) == (s.looking, s.resolving, s.failed)
  {
    hide Keys.Key, Server.GoodClock, AfterFallback, MayDisplace, CacheModel.Get, StepsAfterMiss;
    var key := QueryKey(req);
    var queried := Server.Apply(env, s, Server.Query);
    var looked := Server.Apply(env, queried, Server.Lookup(key));
    Server.StepKeepsSane(env, s, Server.Query);
    Server.StepKeepsSane(env, queried, Server.Lookup(key));
    var rest := [];
    if !Hits(env.cfg, s.cache, key, t.get) {
      var later := Server.Apply(env, looked, Server.Advance(t.check));
      Server.StepKeepsSane(env, looked, Server.Advance(t.check));
      MissIsRun(env, later, req, upstream, victim);
      rest := [Server.Advance(t.check)] + StepsAfterMiss(req, t.check, upstream, victim);
      Server.RunThen(env, looked, Server.Advance(t.check), StepsAfterMiss(req, t.check, upstream, victim));
    }
    Server.RunThen(env, queried, Server.Lookup(key), rest);
    Server.RunThen(env, s, Server.Query, [Server.Lookup(key)] + rest);
  }

  /** Every record of the section carries this TTL; OPT records keep their field. */
  predicate AllTtl(rrs: seq<RR>, ttl: nat)
  {
    forall i :: 0 <= i < |rrs| && rrs[i].rrtype != TYPE_OPT ==> rrs[i].ttl == ttl
  }

  /** A reply served from an entry: its rcode and its records, OPT aside, with one TTL throughout, as the
      answer to this request. */
  predicate ServesEntry(req: Msg, e: Entry, reply: Msg, ttl: nat)
    requires req.question != []
  {
    && reply.id == req.id && reply.question == [req.question[0]] && reply.rcode == e.response.rcode
    && reply.answer == WithTtl(e.response.answer, ttl) && reply.ns == WithTtl(e.response.ns, ttl)
    && WithoutOpt(reply.extra) == WithTtl(WithoutOpt(e.response.extra), ttl)
    && AllTtl(reply.answer, ttl) && AllTtl(reply.ns, ttl) && AllTtl(reply.extra, ttl)
  }

  /** The records that are not OPT carry the new TTL, and OPT records stay OPT records. */
  lemma {:induction false} WithoutOptOfTtl(rrs: seq<RR>, ttl: nat)
    ensures WithoutOpt(WithTtlButOpt(rrs, ttl)) == WithTtl(WithoutOpt(rrs), ttl)
  {
    if rrs != [] {
      var n := |rrs| - 1;
      WithoutOptOfTtl(rrs[..n], ttl);
      assert WithTtlButOpt(rrs, ttl)[..n] == WithTtlButOpt(rrs[..n], ttl);
    }
  }

  lemma {:induction false} NothingToStrip(rrs: seq<RR>)
    requires forall i :: 0 <= i < |rrs| ==> rrs[i].rrtype != TYPE_OPT
    ensures WithoutOpt(rrs) == rrs
  {
    if rrs != [] {
      NothingToStrip(rrs[..|rrs| - 1]);
    }
  }

  /** The reply's additional section: the records that are not OPT, then the server's own OPT if any. */
  lemma RespondExtra(req: Msg, resp: Msg)
    requires req.question != []
    ensures Respond(req, resp).extra == WithoutOpt(resp.extra) + ClientOpt(req.extra)
    ensures WithoutOpt(Respond(req, resp).extra) == WithoutOpt(resp.extra)
  {
    var kept := WithoutOpt(resp.extra);
    NoOptLeft(resp.extra);
    NothingToStrip(kept);
    if FindOpt(resp.extra).None? {
      forall i | 0 <= i < |resp.extra|
        ensures resp.extra[i].rrtype != TYPE_OPT
      {
        NoOptFound(resp.extra, i);
      }
      NothingToStrip(resp.extra);
    }
    if ClientOpt(req.extra) == [] {
      assert kept + ClientOpt(req.extra) == kept;
    } else {
      assert (kept + ClientOpt(req.extra))[..|kept|] == kept;
    }
  }

  lemma RespondServes(req: Msg, e: Entry, ttl: nat)
    requires req.question != []
    ensures ServesEntry(req, e, Respond(req, SetTtl(e.response, ttl)), ttl)
  {
    var m := SetTtl(e.response, ttl);
    RespondExtra(req, m);
    WithoutOptOfTtl(e.response.extra, ttl);
    hide WithoutOpt, FindOpt;
  }

  /** The serving rule, for any change of the cache while the upstream is asked: a reply is a cached answer
      no older than max(TTL, max_age), whose TTLs are the whole seconds of life left, or 30 once expired;
      or the upstream's answer; or, only when the upstream failed and stale serving is on, an entry then in
      the cache and at most 24 hours past its expiry, with TTL 30 (sections 4 and 5 of RFC 8767); or
      SERVFAIL, only when there is no such entry. */
  lemma ServingRule(cfg: Config, zone: int, s: State, later: State, req: Msg, t: Times, upstream: Option<Msg>)
    requires req.question != []
    requires forall k :: k in s.entries ==> s.entries[k].expiresAt == s.entries[k].storedAt + s.entries[k].cachedTtl
    ensures var key := QueryKey(req);
            var source := Decide(cfg, zone, s, later, req, t, upstream);
            var reply := Render(req, source, t.ttl);
            match source
            case FromCache(e) =>
              && key in s.entries && e.response == s.entries[key].response && e.storedAt == s.entries[key].storedAt
              && t.get - e.storedAt <= cfg.Life(s.entries[key])
              && ServesEntry(req, e, reply, TtlForEntry(e, t.ttl))
              && (t.ttl < e.expiresAt ==>
                    TtlForEntry(e, t.ttl) * SECOND <= e.expiresAt - t.ttl < (TtlForEntry(e, t.ttl) + 1) * SECOND)
              && (t.ttl >= e.expiresAt ==> TtlForEntry(e, t.ttl) == LATE_TTL)
            case FromUpstream(resp) =>
              && upstream == Some(resp) && !Hits(cfg, s, key, t.get)
              && reply.answer == resp.answer && reply.ns == resp.ns && reply.rcode == resp.rcode && reply.id == req.id
              && WithoutOpt(reply.extra) == WithoutOpt(resp.extra)
            case FromStale(e) =>
              && upstream.None? && !Hits(cfg, s, key, t.get)
              && cfg.staleServing && key in later.entries && e == later.entries[key]
              && t.check - e.expiresAt <= STALE_MAX_AGE
              && ServesEntry(req, e, reply, LATE_TTL)
            case ServFail =>
              && upstream.None? && !Hits(cfg, s, key, t.get)
              && (cfg.staleServing && key in later.entries ==> t.check - later.entries[key].expiresAt > STALE_MAX_AGE)
              && reply.rcode == RCODE_SERVER_FAILURE && reply.answer == []
  {
    hide UsageDays.Mark, Keys.Key, Respond, ServesEntry, WithoutOpt;
    var key := QueryKey(req);
    match Decide(cfg, zone, s, later, req, t, upstream)
    case FromCache(e) =>
      ServableUntilLife(cfg, s.entries[key], t.get);
      RespondServes(req, e, TtlForEntry(e, t.ttl));
    case FromStale(e) => RespondServes(req, e, LATE_TTL);
    case FromUpstream(resp) => RespondKeeps(req, resp);
    case ServFail =>
  }

  lemma RespondKeeps(req: Msg, resp: Msg)
    requires req.question != []
    ensures var r := Respond(req, resp);
            && r.answer == resp.answer && r.ns == resp.ns && r.rcode == resp.rcode && r.id == req.id
            && WithoutOpt(r.extra) == WithoutOpt(resp.extra)
  {
    RespondExtra(req, resp);
  }

  /** Over every source of a reply: it has at most one OPT record, the server's own and the last, and it has one
      exactly when the client sent one and the reply is not a SERVFAIL. Section 6.1.1 of RFC 6891 asks for
      one whenever the client sent one. */
  lemma OptAnsweredIff(req: Msg, source: Source, now: int)
    requires req.question != []
    ensures var r := Render(req, source, now);
            && (FindOpt(r.extra).Some? <==> FindOpt(req.extra).Some? && !source.ServFail?)
            && forall i :: 0 <= i < |r.extra| && r.extra[i].rrtype == TYPE_OPT ==> i == |r.extra| - 1
  {
    hide Respond, SetTtl, FindOpt;
    match source
    case FromCache(e) => OneOptAtMost(req, SetTtl(e.response, TtlForEntry(e, now)));
    case FromUpstream(resp) => OneOptAtMost(req, resp);
    case FromStale(e) => OneOptAtMost(req, SetTtl(e.response, LATE_TTL));
    case ServFail => NoOptInServerFailure(req);
  }

  lemma NoOptInServerFailure(req: Msg)
    requires req.question != []
    ensures FindOpt(ServerFailure(req).extra).None? && ServerFailure(req).extra == []
  {
  }

  /** A client that announces 4096 bytes and asks for a name nobody has cached while the upstream is down: the
      reply is a SERVFAIL, without the OPT record it should have. */
  lemma ServFailDropsOpt(cfg: Config, zone: int, s: State, q: Question, t: Times)
    requires s.entries == map[]
    ensures var req := Msg(1, RCODE_SUCCESS, false, [q], [], [], [RR(".", TYPE_OPT, 0, Opt(4096, false))]);
            var source := Decide(cfg, zone, s, s, req, t, None);
            && source == ServFail && FindOpt(req.extra).Some?
            && FindOpt(Render(req, source, t.ttl).extra).None?
  {
    hide Keys.Key;
  }

  /** What respond makes of a reply. */
  lemma OneOptAtMost(req: Msg, resp: Msg)
    requires req.question != []
    ensures var r := Respond(req, resp);
            && (FindOpt(r.extra).Some? <==> FindOpt(req.extra).Some?)
            && forall i :: 0 <= i < |r.extra| && r.extra[i].rrtype == TYPE_OPT ==> i == |r.extra| - 1
  {
    hide WithoutOpt, Respond;
    RespondExtra(req, resp);
    NoOptLeft(resp.extra);
    var r := Respond(req, resp);
    if ClientOpt(req.extra) == [] {
      assert r.extra == WithoutOpt(resp.extra);
      if FindOpt(r.extra).Some? {
        OptFound(r.extra);
      }
    } else {
      assert r.extra[|r.extra| - 1].rrtype == TYPE_OPT;
    }
  }

  lemma {:induction false} NoOptLeft(rrs: seq<RR>)
    ensures forall i :: 0 <= i < |WithoutOpt(rrs)| ==> WithoutOpt(rrs)[i].rrtype != TYPE_OPT
  {
    if rrs != [] {
      NoOptLeft(rrs[..|rrs| - 1]);
    }
  }

  lemma {:induction false} NoOptFound(rrs: seq<RR>, i: nat)
    requires FindOpt(rrs).None? && i < |rrs|
    ensures rrs[i].rrtype != TYPE_OPT
  {
    if i < |rrs| - 1 {
      NoOptFound(rrs[..|rrs| - 1], i);
    }
  }

  lemma {:induction false} OptFound(rrs: seq<RR>)
    requires FindOpt(rrs).Some?
    ensures exists i :: 0 <= i < |rrs| && rrs[i].rrtype == TYPE_OPT
  {
    if rrs[|rrs| - 1].rrtype != TYPE_OPT {
      OptFound(rrs[..|rrs| - 1]);
      var i :| 0 <= i < |rrs| - 1 && rrs[..|rrs| - 1][i].rrtype == TYPE_OPT;
      assert rrs[i].rrtype == TYPE_OPT;
    }
  }

  // ---------------------------------------------------------------------------
  // The handler
  // ---------------------------------------------------------------------------

  class DnsHandler {
    const cache: Caches.Cache

    constructor (cache: Caches.Cache)
      ensures this.cache == cache
    {
      this.cache := cache;
    }

    /** ServeDNS, with what the upstream returns if it is asked. `refresh` is the question to ask again in
        the background, for an answer served past its TTL. */
    method ServeDns(req: Msg, t: Times, upstream: Option<Msg>)
      returns (reply: Option<Msg>, refresh: Option<Question>, victim: Option<string>)
      requires cache.Valid() && FitsWord(t.get, cache.zone)
      modifies cache, cache.window, cache.entries.Values
      ensures cache.Valid()
      ensures req.question == [] ==> reply == None && refresh == None && cache.View() == old(cache.View())
      ensures req.question != [] ==>
                var s := old(cache.View());
                var looked := Looked(cache.cfg, cache.zone, s, req, t.get);
                var source := Decide(cache.cfg, cache.zone, s, looked, req, t, upstream);
                && reply == Some(Render(req, source, t.ttl))
                && cache.View() == After(cache.cfg, cache.zone, s, req, t, upstream, victim)
                && (if Hits(cache.cfg, s, QueryKey(req), t.get) then victim == None
                    else MayDisplace(cache.cfg, looked, QueryKey(req), t.check, upstream, victim))
                && refresh == if source.FromCache? && source.e.ExpiredAt(t.check) then Some(req.question[0]) else None
    {
      hide Keys.Key, Respond, ServerFailure, Server.IsCacheable, CacheModel.Get, CacheModel.GetStale, CacheModel.Set,
           Entries.Config.Servable, SetTtl, TtlForEntry, Window.Record, Asked, AfterFallback, StaleHits, MayDisplace;
      reply, refresh, victim := None, None, None;
      if req.question == [] {
        return;
      }
      cache.IncrQueries();
      var q := req.question[0];
      var key := Keys.Key(q.name, q.qtype);
      var e := cache.Get(key, t.get);
      if e == null {
        var answer;
        answer, victim := Resolve(req, key, t.check, upstream);
        reply := Some(answer);
        return;
      }
      if t.check > e.expiresAt {
        refresh := Some(q);
      }
      var copy := CopyAndSetTtl(e.response, TtlForEntry(e.Value(), t.ttl));
      var answer := RespondTo(req, copy);
      reply := Some(answer);
    }

    /** The part of ServeDNS after a miss. */
    method Resolve(req: Msg, key: string, now: int, upstream: Option<Msg>) returns (reply: Msg, victim: Option<string>)
      requires req.question != [] && key == QueryKey(req) && cache.Valid()
      modifies cache, cache.entries.Values
      ensures cache.Valid()
      ensures reply == Render(req, Fallback(cache.cfg, old(cache.View()), key, now, upstream), now)
      ensures cache.View() == AfterFallback(cache.cfg, cache.zone, old(cache.View()), req.question[0], now, upstream,
                                            victim)
      ensures MayDisplace(cache.cfg, old(cache.View()), key, now, upstream, victim)
    {
      hide Keys.Key, Respond, ServerFailure, Server.IsCacheable, CacheModel.GetStale, CacheModel.Set, SetTtl, Erred,
           StaleHits;
      match upstream {
        case None =>
          victim := None;
          reply := ServeStale(req, key, now);
        case Some(resp) =>
          victim := Keep(req.question[0], resp, now);
          reply := RespondTo(req, resp);
      }
    }

    method ServeStale(req: Msg, key: string, now: int) returns (reply: Msg)
      requires req.question != [] && cache.Valid()
      modifies cache, cache.entries.Values
      ensures cache.Valid()
      ensures reply == Render(req, Fallback(cache.cfg, old(cache.View()), key, now, None), now)
      ensures cache.View() == GetStale(cache.cfg, Erred(old(cache.View())), key, now)
    {
      hide Keys.Key, Respond, ServerFailure, SetTtl;
      cache.IncrErrors();
      var stale := cache.GetStale(key, now);
      if stale == null {
        return ServerFailure(req);
      }
      var copy := CopyAndSetTtl(stale.response, LATE_TTL);
      reply := RespondTo(req, copy);
    }

    /** The part of resolveAndCache after the upstream's reply. */
    method Keep(q: Question, resp: Msg, now: int) returns (victim: Option<string>)
      requires cache.Valid()
      modifies cache
      ensures cache.Valid()
      ensures cache.View() == AfterFallback(cache.cfg, cache.zone, old(cache.View()), q, now, Some(resp), victim)
      ensures MayDisplace(cache.cfg, old(cache.View()), Keys.Key(q.name, q.qtype), now, Some(resp), victim)
      ensures if (resp.rcode == 0 || resp.rcode == 3) && !resp.truncated then
                && Keys.Key(q.name, q.qtype) in cache.View().entries
                && cache.View().entries[Keys.Key(q.name, q.qtype)].response == resp
              else cache.View() == old(cache.View())
    {
      hide Keys.Key, Server.IsCacheable, CacheModel.Set, MayEvict;
      ghost var before := cache.View();
      victim := None;
      if Server.IsCacheable(resp) {
        victim := cache.Set(q, resp, Server.AnswerTtl(resp), now);
      }
      KeepsIff(cache.cfg, cache.zone, before, q, now, resp, victim);
    }
  }

  /** respond, up to writing the datagram. */
  method RespondTo(req: Msg, resp: Msg) returns (reply: Msg)
    requires req.question != []
    ensures reply == Respond(req, resp)
  {
    reply := resp.(id := req.id, question := [req.question[0]]);
    if FindOpt(reply.extra).Some? {
      var kept := StripOpt(reply.extra);
      reply := reply.(extra := kept);
    }
    reply := reply.(extra := reply.extra + ClientOpt(req.extra));
  }

  // ---------------------------------------------------------------------------
  // Replies and the cache in fields
  // ---------------------------------------------------------------------------

  /** What an upstream reply does to the cache after a miss, when the key has room or is known: stored as the answer
      under the key exactly when it is NOERROR or NXDOMAIN and not truncated, else nothing happens. */
  lemma KeepsIff(cfg: Config, zone: int, s: State, q: Question, now: int, resp: Msg, victim: Option<string>)
    ensures var key := Keys.Key(q.name, q.qtype);
            var after := AfterFallback(cfg, zone, s, q, now, Some(resp), victim);
            if (resp.rcode == 0 || resp.rcode == 3) && !resp.truncated then
              && key in after.entries && after.entries[key].response == resp && after.entries[key].storedAt == now
              && after.counters == s.counters && after.window == s.window
            else after == s
  {
    hide Keys.Key, UsageDays.Pack, ClampTtl, OriginalTtl;
    NewEntryKey(cfg, zone, q, resp, Server.AnswerTtl(resp), now);
  }

  /** The whole call: an upstream reply to a miss is what the cache then has under the key, or the entries are as the
      lookup left them. */
  lemma CallKeepsIff(cfg: Config, zone: int, s: State, req: Msg, t: Times, resp: Msg, victim: Option<string>)
    requires req.question != [] && |s.window| == WINDOW_MINUTES && t.get >= 0
    requires var key := QueryKey(req);
             key in s.entries ==>
               t.get > s.entries[key].expiresAt && t.get - s.entries[key].storedAt > cfg.maxAge
    ensures var key := QueryKey(req);
            var looked := Looked(cfg, zone, s, req, t.get);
            var after := After(cfg, zone, s, req, t, Some(resp), victim);
            if (resp.rcode == 0 || resp.rcode == 3) && !resp.truncated then
              key in after.entries && after.entries[key].response == resp && after.entries[key].storedAt == t.check
            else after.entries == looked.entries
  {
    hide Keys.Key, AfterFallback, Window.Record, UsageDays.Mark;
    KeepsIff(cfg, zone, Looked(cfg, zone, s, req, t.get), req.question[0], t.check, resp, victim);
  }

  /** Without an upstream reply one error is counted, and the entry changes only when it is served. */
  lemma FailsInFields(cfg: Config, zone: int, s: State, q: Question, now: int, victim: Option<string>)
    ensures var key := Keys.Key(q.name, q.qtype);
            var after := AfterFallback(cfg, zone, s, q, now, None, victim);
            var serves := cfg.staleServing && key in s.entries && now - s.entries[key].expiresAt <= 86_400_000_000_000;
            && after.counters.errors == s.counters.errors + 1
            && after.counters.staleServes == s.counters.staleServes + (if serves then 1 else 0)
            && after.entries.Keys == s.entries.Keys && after.window == s.window
            && (forall k :: k in s.entries && !(serves && k == key) ==> after.entries[k] == s.entries[k])
            && (serves ==>
                  after.entries[key] == s.entries[key].(hitCount := s.entries[key].hitCount + 1, lastHitAt := now))
  {
    hide Keys.Key;
  }

  /** The OPT record of a reply: from the client's last one, a size between 512 and 1232 bytes, its DO bit, no TTL. */
  lemma ClientOptInFields(extra: seq<RR>, i: nat)
    requires i < |extra| && extra[i].rrtype == 41 && extra[i].data.Opt?
    requires forall j :: i < j < |extra| ==> extra[j].rrtype != 41
    ensures var asked := extra[i].data.udpSize;
            var size := if asked < 512 then 512 else if asked > 1232 then 1232 else asked;
            ClientOpt(extra) == [RR(".", 41, 0, Opt(size, extra[i].data.dnssecOk))]
  {
    LastOptFound(extra, i);
  }

  lemma {:induction false} LastOptFound(extra: seq<RR>, i: nat)
    requires i < |extra| && extra[i].rrtype == 41
    requires forall j :: i < j < |extra| ==> extra[j].rrtype != 41
    ensures FindOpt(extra) == Some(extra[i])
  {
    if i < |extra| - 1 {
      LastOptFound(extra[..|extra| - 1], i);
    }
  }

  /** A reply keeps everything of what it answers with but id, question and additional section. */
  lemma RespondInFields(req: Msg, resp: Msg)
    requires req.question != []
    ensures var r := Respond(req, resp);
            && r.id == req.id && r.question == [req.question[0]]
            && (r.rcode, r.truncated, r.answer, r.ns) == (resp.rcode, resp.truncated, resp.answer, resp.ns)
            && r.extra == WithoutOpt(resp.extra) + ClientOpt(req.extra)
  {
    RespondExtra(req, resp);
  }

  /** A SERVFAIL answers the request's first question under its id, with rcode 2 and no record. */
  lemma ServerFailureInFields(req: Msg)
    requires req.question != []
    ensures var r := ServerFailure(req);
            && r.id == req.id && r.question == [req.question[0]] && r.rcode == 2 && !r.truncated
            && r.answer == [] && r.ns == [] && r.extra == []
  {
  }

  /** The TTL of a cached reply, in seconds: what is left, rounded down, or 30 at and after the expiry. */
  lemma ReplyTtlInSeconds(e: Entry, now: int)
    ensures e.expiresAt <= now ==> TtlForEntry(e, now) == 30
    ensures e.expiresAt > now ==>
              TtlForEntry(e, now) * 1_000_000_000 <= e.expiresAt - now < (TtlForEntry(e, now) + 1) * 1_000_000_000
  {
  }
}
