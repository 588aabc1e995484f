/** How persistence.go maps an entry to a database row and back. A packed message is taken to unpack to
    itself; the uint64 usage word is stored as an int64 of the same bits. */
module Rows {
  import opened Clock
  import opened Dns
  import opened Entries
  import opened RefreshModel
  import Bits
  import Keys
  import UsageDays

  datatype RowKey = RowKey(name: string, qtype: nat)

  /** Times are Unix seconds except last_hit_at, which is in nanoseconds. */
  datatype Row = Row(data: Msg, storedAt: int, originalTtl: nat, cachedTtl: int, hitCount: nat, lastHitAt: int,
                     usedDays: bv64)

  type Table = map<RowKey, Row>

  function KeyOf(e: Entry): RowKey
  {
    RowKey(e.name, e.qtype)
  }

  /** int64(d.Seconds()): towards zero. */
  function WholeSeconds(d: int): int
  {
    if d >= 0 then d / SECOND else -(-d / SECOND)
  }

  function Encode(e: Entry): Row
  {
    Row(e.response, Unix(e.storedAt), e.originalTtl, WholeSeconds(e.cachedTtl), e.hitCount, e.lastHitAt, e.usedDays)
  }

  /** The columns a row may lack, as LoadAll fills them in: the TTL from the upstream's, the last request
      from the fetch, the usage days from the last request. */
  function LastHit(r: Row): int
  {
    if r.lastHitAt == 0 then r.storedAt * SECOND else r.lastHitAt
  }

  function Ttl(r: Row): int
  {
    if r.cachedTtl * SECOND <= 0 then r.originalTtl * SECOND else r.cachedTtl * SECOND
  }

  function Days(zone: int, r: Row): bv64
  {
    if r.usedDays == 0 then UsageDays.Pack(LocalDay(LastHit(r), zone)) else r.usedDays
  }

  function Decode(zone: int, k: RowKey, r: Row): Entry
  {
    Entry(k.name, k.qtype, r.data, r.storedAt * SECOND, r.originalTtl, Ttl(r), r.storedAt * SECOND + Ttl(r),
          r.hitCount, LastHit(r), Days(zone, r))
  }

  /** The filter of LoadAll: asked for within the keep window. */
  predicate Loadable(r: Row, now: int, keepWindow: int)
  {
    now - LastHit(r) <= keepWindow
  }

  function Reloaded(zone: int, e: Entry): Entry
  {
    Decode(zone, KeyOf(e), Encode(e))
  }

  // ---------------------------------------------------------------------------
  // Round trips
  // ---------------------------------------------------------------------------

  lemma PackNotZero(day: int)
    ensures UsageDays.Pack(day) != 0
  {
    UsageDays.SplitGlue(Bits.BitsOf(day % UsageDays.DAY_LIMIT), 1);
    UsageDays.MaskOfZero();
  }

  /** Saving what was loaded and loading it again changes nothing: one restart settles every fallback. */
  lemma SecondReloadIsIdentity(zone: int, k: RowKey, r: Row)
    ensures Reloaded(zone, Decode(zone, k, r)) == Decode(zone, k, r)
  {
    PackNotZero(LocalDay(LastHit(r), zone));
    hide UsageDays.Pack;
  }

  /** A save and a load of an entry with a positive whole-second TTL: key, answer, hits, last request and
      usage days come back unchanged; the fetch time and the expiry move back by less than a second. */
  lemma ReloadKeepsEntry(zone: int, e: Entry)
    requires e.cachedTtl > 0 && e.cachedTtl % SECOND == 0 && e.expiresAt == e.storedAt + e.cachedTtl
    requires e.lastHitAt != 0 && e.usedDays != 0
    ensures var r := Reloaded(zone, e);
            && r == e.(storedAt := r.storedAt, expiresAt := r.expiresAt)
            && e.expiresAt - SECOND < r.expiresAt <= e.expiresAt
            && e.storedAt - SECOND < r.storedAt <= e.storedAt
  {
  }

  /** A restart does not lengthen the life of an entry Set made exactly when its TTL is positive: a TTL
      clamped to zero or below is taken for a missing column, and the upstream's is used instead. */
  lemma ReloadNeverLengthensIff(zone: int, e: Entry)
    requires e.cachedTtl % SECOND == 0 && e.expiresAt == e.storedAt + e.cachedTtl && e.originalTtl > 0
    ensures Reloaded(zone, e).expiresAt <= e.expiresAt <==> e.cachedTtl > 0
  {
  }

  /** With ttl_max 0 an answer that expired at once lives a day after a restart. */
  lemma ZeroTtlMaxLengthens(zone: int, q: Question, resp: Msg)
    requires resp.answer != []
    ensures var e := NewEntry(Config(0, 0, 1, false, 0, 1, 1), zone, q, resp, 86400, SECOND);
            e.expiresAt == SECOND && Reloaded(zone, e).expiresAt == SECOND + DAY
  {
  }

  /** Every entry that is usual at a later start passes LoadAll's filter and is usual again, with the same
      key, although the filter measures nanoseconds and usualness counts days. */
  lemma RestartKeepsUsual(cfg: Config, zone: int, e: Entry, now: int)
    requires cfg.Normal() && HistoryInOrder(e, zone) && cfg.Usual(e, now, zone)
    requires e.lastHitAt != 0
    ensures Loadable(Encode(e), now, cfg.KeepWindow())
    ensures cfg.Usual(Reloaded(zone, e), now, zone) && Reloaded(zone, e).Key() == e.Key()
  {
    hide UsageDays.DaysUsed, Keys.Key;
    UsualHasHistory(cfg, e, now, zone);
    if now - e.lastHitAt > cfg.KeepWindow() {
      LongUnusedIsCold(cfg, zone, e, now);
    }
  }

  // ---------------------------------------------------------------------------
  // Cleanup
  // ---------------------------------------------------------------------------

  /** Cleanup deletes by fetch time. */
  predicate CleanedUp(r: Row, now: int, after: int)
  {
    r.storedAt < Unix(now - after)
  }

  /** With the cleanup at its lowest setting, the keep window: a name asked for again ten seconds after its
      fetch is deleted while it could still be loaded, whatever the configuration. */
  lemma CleanupTakesLoadable(cfg: Config, zone: int, q: Question, resp: Msg)
    requires cfg.Normal()
    ensures var e := NewEntry(cfg, zone, q, resp, 300, SECOND).Touched(11 * SECOND, zone);
            var now := cfg.KeepWindow() + 6 * SECOND;
            Loadable(Encode(e), now, cfg.KeepWindow()) && CleanedUp(Encode(e), now, cfg.KeepWindow())
  {
    hide UsageDays.Mark, UsageDays.Pack, ClampTtl, OriginalTtl;
  }

  /** Cleanup spares every row that LoadAll would still load exactly when the name was not asked for later
      than `after` minus the keep window past the fetch: it looks at the fetch, the load at the request. */
  lemma CleanupSparesLoadableIff(r: Row, after: int, keepWindow: int)
    ensures (forall now :: Loadable(r, now, keepWindow) ==> !CleanedUp(r, now, after))
            <==> Unix(LastHit(r) + keepWindow - after) <= r.storedAt
  {
    var last := LastHit(r) + keepWindow;
    if Unix(last - after) <= r.storedAt {
      forall now | Loadable(r, now, keepWindow)
        ensures !CleanedUp(r, now, after)
      {
        assert Unix(now - after) <= Unix(last - after);
      }
    } else {
      assert Loadable(r, last, keepWindow) && CleanedUp(r, last, after);
    }
  }

  // ---------------------------------------------------------------------------
  // The columns
  // ---------------------------------------------------------------------------

  /** What a save writes: whole seconds rounded down for the fetch and towards zero for the TTL, nanoseconds for the
      last request, the rest as it is. */
  lemma SavedColumns(e: Entry)
    ensures var r := Encode(e);
            && KeyOf(e).name == e.name && KeyOf(e).qtype == e.qtype && r.data == e.response
            && r.storedAt * 1_000_000_000 <= e.storedAt < (r.storedAt + 1) * 1_000_000_000
            && r.originalTtl == e.originalTtl && r.hitCount == e.hitCount
            && r.lastHitAt == e.lastHitAt && r.usedDays == e.usedDays
            && (e.cachedTtl >= 0 ==> 0 <= e.cachedTtl - r.cachedTtl * 1_000_000_000 < 1_000_000_000)
            && (e.cachedTtl < 0 ==> -1_000_000_000 < e.cachedTtl - r.cachedTtl * 1_000_000_000 <= 0)
  {
  }

  /** The last request a row tells of: its own column, or the fetch where that is 0. */
  function AskedLast(r: Row): int
  {
    if r.lastHitAt != 0 then r.lastHitAt else r.storedAt * 1_000_000_000
  }

  /** An entry as a row tells of it. Missing columns read as 0: the last request is then the fetch, the usage days the
      one day of the last request, and the TTL the upstream's. */
  ghost predicate TellsOf(zone: int, k: RowKey, r: Row, e: Entry)
  {
    var ttl := if r.cachedTtl > 0 then r.cachedTtl else r.originalTtl;
    var day := LocalDay(AskedLast(r), zone);
    && e.name == k.name && e.qtype == k.qtype && e.response == r.data && e.hitCount == r.hitCount
    && e.originalTtl == r.originalTtl
    && e.storedAt == r.storedAt * 1_000_000_000 && e.cachedTtl == ttl * 1_000_000_000
    && e.expiresAt == (r.storedAt + ttl) * 1_000_000_000
    && e.lastHitAt == AskedLast(r)
    && (r.usedDays != 0 ==> e.usedDays == r.usedDays)
    && (r.usedDays == 0 && 0 <= day < UsageDays.DAY_LIMIT ==>
          UsageDays.Represents(e.usedDays, UsageDays.History(day, {day})))
  }

  /** Every row, with or without the later columns, loads as it tells, and exactly when its last request is within the
      keep window. */
  lemma LoadedColumns(zone: int, k: RowKey, r: Row, now: int, keepWindow: int)
    ensures TellsOf(zone, k, r, Decode(zone, k, r))
    ensures Loadable(r, now, keepWindow) <==> now - AskedLast(r) <= keepWindow
  {
    hide UsageDays.Pack, UsageDays.Represents;
    var day := LocalDay(AskedLast(r), zone);
    if 0 <= day < UsageDays.DAY_LIMIT {
      UsageDays.PackIsOneDay(day);
    }
  }

  /** Cleanup takes a row when the whole second of its fetch is over by the cutoff. */
  lemma CleanedInSeconds(r: Row, now: int, after: int)
    ensures CleanedUp(r, now, after) <==> (r.storedAt + 1) * 1_000_000_000 <= now - after
  {
  }
}
