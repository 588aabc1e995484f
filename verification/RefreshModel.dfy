/** What the background refresher of refresher.go decides, on values: backoff after failures, which
    entries are due at a tick, which of them are refreshed first, and which entries are dropped. */
module RefreshModel {
  import opened Clock
  import opened Entries
  import opened Sets
  import Dns
  import UsageDays

  const MAX_REFRESH_PER_CYCLE: int := 500
  const BACKOFF_MAX: int := 30 * MINUTE
  const BACKOFF_SHIFT: nat := 10
  const TWO_63: int := 0x8000_0000_0000_0000

  datatype Failure = Failure(count: nat, nextTry: int)

  // ---------------------------------------------------------------------------
  // Backoff
  // ---------------------------------------------------------------------------

  function Pow2(n: nat): nat
  {
    if n == 0 then 1 else 2 * Pow2(n - 1)
  }

  /** int64 arithmetic */
  function Wrap64(x: int): int
  {
    var m := x % (2 * TWO_63);
    if m < TWO_63 then m else m - 2 * TWO_63
  }

  /** The wait noteFailure sets after the count-th consecutive failure: interval << min(count, 10) in
      int64, replaced by 30 minutes when above them or not positive. */
  function Wait(interval: int, count: nat): int
  {
    var shift := if count > BACKOFF_SHIFT then BACKOFF_SHIFT else count;
    var wait := Wrap64(interval * Pow2(shift));
    if wait > BACKOFF_MAX || wait <= 0 then BACKOFF_MAX else wait
  }

  /** Exponential backoff with a cap, in unbounded integers. */
  function ExactWait(interval: int, count: nat): int
  {
    Min(interval * Pow2(Min(count, BACKOFF_SHIFT)), BACKOFF_MAX)
  }

  lemma {:induction false} Pow2Monotone(c: nat, d: nat)
    requires c <= d
    ensures Pow2(c) <= Pow2(d)
  {
    if c < d {
      Pow2Monotone(c, d - 1);
    }
  }

  lemma MulMonotone(x: int, a: int, b: int)
    requires x >= 0 && a <= b
    ensures x * a <= x * b
  {
  }

  /** The factor of the shift is between 1 and 1024. */
  lemma ShiftFactor(interval: int, shift: nat)
    requires interval > 0 && shift <= BACKOFF_SHIFT
    ensures interval <= interval * Pow2(shift) <= interval * 1024
  {
    Pow2Monotone(0, shift);
    Pow2Monotone(shift, BACKOFF_SHIFT);
    assert Pow2(BACKOFF_SHIFT) == 1024;
    MulMonotone(interval, 1, Pow2(shift));
    MulMonotone(interval, Pow2(shift), 1024);
  }

  /** The int64 shift overflows, or is rejected by the guard, or is exact: the wait is the intended one in
      exactly these cases. */
  lemma WaitExactIff(interval: int, count: nat)
    requires interval > 0
    ensures var p := interval * Pow2(Min(count, BACKOFF_SHIFT));
            Wait(interval, count) == ExactWait(interval, count)
            <==> p < TWO_63 || Wrap64(p) <= 0 || Wrap64(p) >= BACKOFF_MAX
  {
    ShiftFactor(interval, Min(count, BACKOFF_SHIFT));
  }

  /** No overflow below 2^53 nanoseconds (104 days). */
  lemma WaitExact(interval: int, count: nat)
    requires 0 < interval < 0x20_0000_0000_0000
    ensures Wait(interval, count) == ExactWait(interval, count) && 0 < Wait(interval, count) <= BACKOFF_MAX
  {
    ShiftFactor(interval, Min(count, BACKOFF_SHIFT));
  }

  /** Above it the shift can wrap to a short wait that the guard lets through: with a refresh interval of
      18014399 seconds, some 208 days, the tenth failure waits 8 minutes instead of 30. */
  lemma WaitOverflows()
    ensures Wait(18014399 * SECOND, 10) == 502_290_448_384 < ExactWait(18014399 * SECOND, 10)
  {
    assert Pow2(10) == 1024;
  }

  lemma WaitMonotone(interval: int, c: nat, d: nat)
    requires 0 < interval < 0x20_0000_0000_0000 && c <= d
    ensures Wait(interval, c) <= Wait(interval, d)
  {
    WaitExact(interval, c);
    WaitExact(interval, d);
    Pow2Monotone(Min(c, BACKOFF_SHIFT), Min(d, BACKOFF_SHIFT));
    MulMonotone(interval, Pow2(Min(c, BACKOFF_SHIFT)), Pow2(Min(d, BACKOFF_SHIFT)));
  }

  predicate BackingOff(failures: map<string, Failure>, key: string, now: int)
  {
    key in failures && now < failures[key].nextTry
  }

  /** noteFailure */
  function NoteFailure(failures: map<string, Failure>, interval: int, key: string, now: int): map<string, Failure>
  {
    var count := if key in failures then failures[key].count + 1 else 1;
    failures[key := Failure(count, now + Wait(interval, count))]
  }

  /** pruneFailures */
  function KeepFailures(failures: map<string, Failure>, keys: set<string>): map<string, Failure>
  {
    map k | k in failures && k in keys :: failures[k]
  }

  // ---------------------------------------------------------------------------
  // Who is due
  // ---------------------------------------------------------------------------

  datatype Verdict = Cold | InBackoff | NotDue | Due(overdue: bool)

  function MinWindow(interval: int): int
  {
    interval * 3 / 2
  }

  /** How long before the end of its life an entry is prefetched: `scaled` is the share of the life the hit
      count earns, never under one and a half intervals nor over the whole life. */
  function Threshold(life: int, scaled: int, minWindow: int): int
  {
    Min(Max(scaled, minWindow), life)
  }

  function Scaled(life: int, hits: nat): int
  {
    (life as real * RefreshThreshold(hits)).Floor
  }

  /** The body of the loop of selectCandidates. */
  function Classify(cfg: Config, zone: int, interval: int, failures: map<string, Failure>, key: string, e: Entry,
                    now: int): Verdict
    requires cfg.Normal()
  {
    if !cfg.Usual(e, now, zone) then Cold
    else if BackingOff(failures, key, now) then InBackoff
    else
      var life := cfg.Life(e);
      var remaining := e.storedAt + life - now;
      if remaining <= 0 then Due(true)
      else if remaining <= Threshold(life, Scaled(life, e.hitCount), MinWindow(interval)) then Due(false)
      else NotDue
  }

  /** Whatever the share, an entry left alone at a tick outlives the tick by more than the window, if its
      life is that long. */
  lemma NotDueOutlivesWindow(life: int, scaled: int, minWindow: int, remaining: int)
    requires minWindow <= life && remaining > Threshold(life, scaled, minWindow)
    ensures remaining > minWindow
  {
  }

  /** More hits never earn a smaller share of the life. */
  lemma ScaledMonotone(life: int, fewer: nat, more: nat)
    requires life >= 0 && fewer <= more
    ensures Scaled(life, fewer) <= Scaled(life, more)
  {
    assert RefreshThreshold(fewer) <= RefreshThreshold(more);
    assert life as real * RefreshThreshold(fewer) <= life as real * RefreshThreshold(more);
  }

  /** Prefetch is monotone in popularity: of two usual entries fetched together with the same TTL, the one
      with more hits is due whenever the other is, through the tiers, the window and the clamp. */
  lemma PopularIsDueFirst(cfg: Config, zone: int, interval: int, failures: map<string, Failure>,
                          key1: string, e1: Entry, key2: string, e2: Entry, now: int)
    requires cfg.Normal()
    requires e1.storedAt == e2.storedAt && e1.cachedTtl == e2.cachedTtl && e1.hitCount <= e2.hitCount
    requires cfg.Usual(e2, now, zone) && !BackingOff(failures, key2, now)
    requires Classify(cfg, zone, interval, failures, key1, e1, now).Due?
    ensures Classify(cfg, zone, interval, failures, key2, e2, now)
            == Classify(cfg, zone, interval, failures, key1, e1, now)
  {
    hide UsageDays.DaysUsed;
    ScaledMonotone(cfg.Life(e1), e1.hitCount, e2.hitCount);
  }

  // ---------------------------------------------------------------------------
  // Who goes first
  // ---------------------------------------------------------------------------

  datatype Candidate = Candidate(key: string, overdue: bool, hits: nat)

  /** The comparison of the sort: overdue first, then by hits. */
  predicate Outranks(a: Candidate, b: Candidate)
  {
    if a.overdue != b.overdue then a.overdue else a.hits > b.hits
  }

  predicate Ranked(s: seq<Candidate>)
  {
    forall i, j :: 0 <= i < j < |s| ==> !Outranks(s[j], s[i])
  }

  function Verdicts(cfg: Config, zone: int, interval: int, failures: map<string, Failure>, entries: map<string, Entry>,
                    now: int): (verdicts: map<string, Verdict>)
    requires cfg.Normal()
    ensures verdicts.Keys == entries.Keys
  {
    map k | k in entries :: Classify(cfg, zone, interval, failures, k, entries[k], now)
  }

  function ColdKeys(verdicts: map<string, Verdict>): set<string>
  {
    set k | k in verdicts && verdicts[k].Cold?
  }

  function BackoffKeys(verdicts: map<string, Verdict>): set<string>
  {
    set k | k in verdicts && verdicts[k].InBackoff?
  }

  function NotDueKeys(verdicts: map<string, Verdict>): set<string>
  {
    set k | k in verdicts && verdicts[k].NotDue?
  }

  function DueKeys(verdicts: map<string, Verdict>): set<string>
  {
    set k | k in verdicts && verdicts[k].Due?
  }

  /** Every entry of the snapshot is in exactly one class, and the counts add up. */
  lemma VerdictsPartition(verdicts: map<string, Verdict>)
    ensures |ColdKeys(verdicts)| + |BackoffKeys(verdicts)| + |NotDueKeys(verdicts)| + |DueKeys(verdicts)| == |verdicts|
  {
    var c, b, n, d := ColdKeys(verdicts), BackoffKeys(verdicts), NotDueKeys(verdicts), DueKeys(verdicts);
    assert verdicts.Keys == c + b + n + d;
    assert c !! b && (c + b) !! n && (c + b + n) !! d;
    assert |verdicts| == |verdicts.Keys|;
  }

  function CandidateOf(verdicts: map<string, Verdict>, entries: map<string, Entry>, key: string): Candidate
    requires key in verdicts && key in entries && verdicts[key].Due?
  {
    Candidate(key, verdicts[key].overdue, entries[key].hitCount)
  }

  function Candidates(verdicts: map<string, Verdict>, entries: map<string, Entry>): set<Candidate>
    requires verdicts.Keys == entries.Keys
  {
    set k | k in DueKeys(verdicts) :: CandidateOf(verdicts, entries, k)
  }

  predicate Distinct(s: seq<Candidate>)
  {
    forall i, j :: 0 <= i < j < |s| ==> s[i].key != s[j].key
  }

  /** What a cycle refreshes, in order: candidates only, none twice, at most 500, the best first, and no
      candidate left out ranks above one that is in. */
  ghost predicate Picks(cands: set<Candidate>, picked: seq<Candidate>)
  {
    && Distinct(picked)
    && (forall c :: c in picked ==> c in cands)
    && |picked| == Min(MAX_REFRESH_PER_CYCLE, |cands|)
    && Ranked(picked)
    && forall c, p :: c in cands && c !in picked && p in picked ==> !Outranks(c, p)
  }

  /** With no more than 500 candidates, all are refreshed. */
  lemma FewCandidatesAllPicked(cands: set<Candidate>, picked: seq<Candidate>, c: Candidate)
    requires Picks(cands, picked) && |cands| <= MAX_REFRESH_PER_CYCLE && c in cands
    ensures c in picked
  {
    SizeOfDistinct(picked);
    if c !in picked {
      SubsetSize(Elements(picked), cands - {c});
    }
  }

  // ---------------------------------------------------------------------------
  // Who is dropped
  // ---------------------------------------------------------------------------

  /** The test of pruneUnused. */
  predicate Unused(cfg: Config, e: Entry, now: int)
  {
    e.ExpiredAt(now) && now - e.lastHitAt > cfg.KeepWindow()
  }

  /** Every usage day was recorded no later than the last request. */
  predicate HistoryInOrder(e: Entry, zone: int)
  {
    UsageDays.LastDay(e.usedDays) <= LocalDay(e.lastHitAt, zone) && Unix(e.lastHitAt) + zone >= 0
  }

  /** An entry nobody asked for during a whole window has no usage day in it. */
  lemma LongUnusedIsCold(cfg: Config, zone: int, e: Entry, now: int)
    requires cfg.Normal() && HistoryInOrder(e, zone) && now - e.lastHitAt > cfg.KeepWindow()
    ensures UsageDays.DaysUsed(e.usedDays, LocalDay(now, zone), cfg.keepWindowDays) == 0
    ensures !cfg.Usual(e, now, zone)
  {
    DaysApart(e.lastHitAt, now, cfg.keepWindowDays, zone, zone);
  }

  /** Pruning, which measures nanoseconds, never takes an entry the selection, which counts days, would
      keep. */
  lemma UnusedIsCold(cfg: Config, zone: int, e: Entry, now: int)
    requires cfg.Normal() && HistoryInOrder(e, zone) && Unused(cfg, e, now)
    ensures !cfg.Usual(e, now, zone)
  {
    LongUnusedIsCold(cfg, zone, e, now);
  }

  /** The same with the zone in force at the last request and the one now. */
  ghost predicate PruneSparesUsual(cfg: Config, before: int, after: int)
    requires cfg.Normal()
  {
    forall e: Entry, now: int :: HistoryInOrder(e, before) && Unused(cfg, e, now) ==> !cfg.Usual(e, now, after)
  }

  /** A zone may move by up to a day, as when summer time ends or the machine travels: pruning still never
      takes a usual entry exactly when the zone did not move back or usual means at least two days. */
  lemma PruneSparesUsualIff(cfg: Config, before: int, after: int)
    requires cfg.Normal() && -86400 <= before - after <= 86400 && -86400 <= before <= 86400
    ensures PruneSparesUsual(cfg, before, after) <==> before <= after || cfg.keepMinDays >= 2
  {
    hide UsageDays.DaysUsed, UsageDays.LastDay, UsageDays.Pack;
    if before <= after || cfg.keepMinDays >= 2 {
      forall e: Entry, now: int | HistoryInOrder(e, before) && Unused(cfg, e, now)
        ensures !cfg.Usual(e, now, after)
      {
        PrunedIsCold(cfg, before, after, e, now);
      }
    } else {
      var s := LateStart(cfg.keepWindowDays, before, after);
      var day := LocalDay(s, before);
      var now := s + cfg.KeepWindow() + 1;
      var e := Entry("", 0, Dns.Msg(0, 0, false, [], [], [], []), s, 0, 0, s, 1, s, UsageDays.Pack(day));
      UsageDays.PackIsFirstMark(day);
      OnlyDayCounts(day, LocalDay(now, after), cfg.keepWindowDays);
      assert HistoryInOrder(e, before) && Unused(cfg, e, now);
    }
  }

  lemma OnlyDayCounts(day: int, today: int, window: int)
    requires 0 <= day < UsageDays.DAY_LIMIT && 1 <= window <= 32 && today < day + window
    ensures UsageDays.DaysUsed(UsageDays.Pack(day), today, window) == 1
  {
    hide UsageDays.DaysUsed, UsageDays.Pack, UsageDays.Represents;
    var h := UsageDays.History(day, {day});
    UsageDays.PackIsOneDay(day);
    UsageDays.DaysUsedCountsWindow(UsageDays.Pack(day), h, today, window);
    assert UsageDays.InWindow(h, today, window) == {day};
  }

  lemma PrunedIsCold(cfg: Config, before: int, after: int, e: Entry, now: int)
    requires cfg.Normal() && HistoryInOrder(e, before) && Unused(cfg, e, now)
    requires before <= after || (before - after <= 86400 && cfg.keepMinDays >= 2)
    ensures !cfg.Usual(e, now, after)
  {
    if before <= after {
      DaysApart(e.lastHitAt, now, cfg.keepWindowDays, before, after);
    } else {
      hide UsageDays.DaysUsed;
      DaysApartButOne(e.lastHitAt, now, cfg.keepWindowDays, before, after);
      UsageDays.OneDayLeft(e.usedDays, LocalDay(now, after), cfg.keepWindowDays);
    }
  }
}
