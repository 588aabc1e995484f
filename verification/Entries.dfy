/** A cached answer with its usage history (cache/entry.go), the cache's configuration, and how a new
    answer becomes an entry (the first half of Cache.Set in cache/cache.go). */
module Entries {
  import opened Clock
  import opened Dns
  import opened Keys
  import UsageDays

  datatype Config = Config(ttlMin: int, ttlMax: int, maxEntries: int, staleServing: bool, maxAge: int,
                           keepMinDays: int, keepWindowDays: int)
  {
    /** What config.normalize leaves. */
    predicate Normal()
    {
      1 <= keepMinDays <= keepWindowDays <= 32 && maxAge >= 0
    }

    function KeepWindow(): int
    {
      keepWindowDays * DAY
    }

    predicate Usual(e: Entry, now: int, zone: int)
      requires Normal()
    {
      UsageDays.DaysUsed(e.usedDays, LocalDay(now, zone), keepWindowDays) >= keepMinDays
    }

    /** How long after the fetch the refresher lets an answer live: max(TTL, max_age). */
    function Life(e: Entry): int
    {
      Max(e.cachedTtl, maxAge)
    }

    /** The test of Cache.Get: past the TTL an answer is served while younger than max_age. */
    predicate Servable(e: Entry, now: int)
    {
      !(e.ExpiredAt(now) && now - e.storedAt > maxAge)
    }
  }

  datatype Entry = Entry(name: string, qtype: nat, response: Msg, storedAt: int, originalTtl: nat,
                         cachedTtl: int, expiresAt: int, hitCount: nat, lastHitAt: int, usedDays: bv64)
  {
    function Key(): string
    {
      Keys.Key(name, qtype)
    }

    predicate ExpiredAt(now: int)
    {
      now > expiresAt
    }

    /** A client asked for the name: Get's update of recency and usage days. */
    function Touched(now: int, zone: int): Entry
    {
      this.(lastHitAt := now, usedDays := UsageDays.Mark(usedDays, LocalDay(now, zone)))
    }

    /** A refresh is not a client access: the history of the entry it replaces is kept. */
    function Inheriting(previous: Entry): Entry
    {
      this.(hitCount := previous.hitCount, lastHitAt := previous.lastHitAt, usedDays := previous.usedDays)
    }
  }

  function RefreshThreshold(hits: nat): real
  {
    if hits >= 100 then 0.30
    else if hits >= 20 then 0.20
    else if hits >= 5 then 0.15
    else 0.10
  }

  /** min(soa.Minttl, soa.Hdr.Ttl) of the first SOA in the authority section (section 5 of RFC 2308). */
  function NegativeTtl(ns: seq<RR>, fallback: nat): nat
  {
    if ns == [] then fallback
    else if ns[0].data.Soa? then if ns[0].data.minttl <= ns[0].ttl then ns[0].data.minttl else ns[0].ttl
    else NegativeTtl(ns[1..], fallback)
  }

  /** The TTL in seconds Set works with: the negative one for an answerless reply, 60 for none. */
  function OriginalTtl(resp: Msg, given: nat): nat
  {
    var ttl := if resp.answer == [] then NegativeTtl(resp.ns, given) else given;
    if ttl == 0 then 60 else ttl
  }

  function ClampTtl(cfg: Config, ttl: int): int
  {
    var raised := if ttl < cfg.ttlMin then cfg.ttlMin else ttl;
    if raised > cfg.ttlMax then cfg.ttlMax else raised
  }

  /** The entry Set builds before it looks for an older one. */
  function NewEntry(cfg: Config, zone: int, q: Question, resp: Msg, given: nat, now: int): Entry
  {
    var seconds := OriginalTtl(resp, given);
    var ttl := ClampTtl(cfg, seconds * SECOND);
    Entry(CanonicalName(q.name), q.qtype, resp, now, seconds, ttl, now + ttl,
          1, now, UsageDays.Pack(LocalDay(now, zone)))
  }

  /** The key Set stores under is the key the handler looks up. */
  lemma NewEntryKey(cfg: Config, zone: int, q: Question, resp: Msg, given: nat, now: int)
    ensures NewEntry(cfg, zone, q, resp, given, now).Key() == Key(q.name, q.qtype)
  {
    KeyOfCanonical(q.name, q.qtype);
  }

  lemma ClampTtlInRange(cfg: Config, ttl: int)
    requires cfg.ttlMin <= cfg.ttlMax
    ensures cfg.ttlMin <= ClampTtl(cfg, ttl) <= cfg.ttlMax
    ensures cfg.ttlMin <= ttl <= cfg.ttlMax ==> ClampTtl(cfg, ttl) == ttl
  {
  }

  /** The negative TTL never exceeds either bound of the first SOA, and a reply without SOA keeps the
      caller's TTL. */
  lemma {:induction false} NegativeTtlIsFirstSoa(ns: seq<RR>, fallback: nat, i: nat)
    requires i <= |ns| && forall j :: 0 <= j < i ==> !ns[j].data.Soa?
    requires i < |ns| ==> ns[i].data.Soa?
    ensures NegativeTtl(ns, fallback) == if i < |ns| then Min(ns[i].data.minttl, ns[i].ttl) else fallback
    decreases |ns|
  {
    if i > 0 {
      NegativeTtlIsFirstSoa(ns[1..], fallback, i - 1);
    }
  }

  /** An answer is served exactly until max(TTL, max_age) after its fetch: Get's test, the refresher's
      deadline and the expiry agree. */
  lemma ServableUntilLife(cfg: Config, e: Entry, now: int)
    requires e.expiresAt == e.storedAt + e.cachedTtl
    ensures cfg.Servable(e, now) <==> now <= e.storedAt + cfg.Life(e)
  {
  }

  /** A usual entry has a usage word. */
  lemma UsualHasHistory(cfg: Config, e: Entry, now: int, zone: int)
    requires cfg.Normal() && cfg.Usual(e, now, zone)
    ensures e.usedDays != 0
  {
  }
}
