/** The background refresher of refresher.go as the source has it: failures updated in place, entries
    deleted while the snapshot is walked, candidates collected, sorted and cut. Each method is proved
    against RefreshModel, and the cycle and the refresh against the steps of Server. */
module Refreshers {
  import opened CacheModel
  import opened Caches
  import opened Clock
  import opened Dns
  import opened Entries
  import opened Options
  import opened RefreshModel
  import Keys
  import Server
  import Sets

  // ---------------------------------------------------------------------------
  // Selection
  // ---------------------------------------------------------------------------

  /** `seen` after one more verdict: only the class of that verdict grows. */
  lemma OneMoreVerdict(seen: map<string, Verdict>, key: string, v: Verdict)
    requires key !in seen
    ensures var next := seen[key := v];
            && ColdKeys(next) == (if v.Cold? then ColdKeys(seen) + {key} else ColdKeys(seen))
            && BackoffKeys(next) == (if v.InBackoff? then BackoffKeys(seen) + {key} else BackoffKeys(seen))
            && DueKeys(next) == (if v.Due? then DueKeys(seen) + {key} else DueKeys(seen))
  {
  }

  /** The candidates collected so far: one for each key found due. */
  ghost predicate Collected(seen: map<string, Verdict>, entries: map<string, Entry>, cands: seq<Candidate>)
    requires seen.Keys <= entries.Keys
  {
    && Distinct(cands)
    && (forall c :: c in cands ==> c.key in DueKeys(seen) && c == CandidateOf(seen, entries, c.key))
    && forall k :: k in DueKeys(seen) ==> CandidateOf(seen, entries, k) in cands
  }

  lemma CollectOne(seen: map<string, Verdict>, entries: map<string, Entry>, cands: seq<Candidate>, key: string,
                   v: Verdict)
    requires seen.Keys <= entries.Keys && key in entries && key !in seen && Collected(seen, entries, cands)
    ensures var more := if v.Due? then cands + [Candidate(key, v.overdue, entries[key].hitCount)] else cands;
            Collected(seen[key := v], entries, more)
  {
    OneMoreVerdict(seen, key, v);
    var next := seen[key := v];
    var more := if v.Due? then cands + [Candidate(key, v.overdue, entries[key].hitCount)] else cands;
    forall k | k in DueKeys(next)
      ensures CandidateOf(next, entries, k) in more
    {
      if k == key {
        assert more[|cands|] == CandidateOf(next, entries, k);
      } else {
        assert CandidateOf(seen, entries, k) in cands;
      }
    }
  }

  /** What the loop has found after the verdicts in `seen`. */
  ghost predicate Tallied(seen: map<string, Verdict>, entries: map<string, Entry>, cands: seq<Candidate>, cold: nat,
                          backoff: nat)
    requires seen.Keys <= entries.Keys
  {
    Collected(seen, entries, cands) && cold == |ColdKeys(seen)| && backoff == |BackoffKeys(seen)|
  }

  lemma TallyOne(seen: map<string, Verdict>, entries: map<string, Entry>, cands: seq<Candidate>, cold: nat,
                 backoff: nat, key: string, v: Verdict)
    requires seen.Keys <= entries.Keys && key in entries && key !in seen && Tallied(seen, entries, cands, cold, backoff)
    ensures Tallied(seen[key := v], entries,
                    if v.Due? then cands + [Candidate(key, v.overdue, entries[key].hitCount)] else cands,
                    if v.Cold? then cold + 1 else cold,
                    if v.InBackoff? then backoff + 1 else backoff)
  {
    CollectOne(seen, entries, cands, key, v);
    OneMoreVerdict(seen, key, v);
  }

  /** The body of the loop of selectCandidates. */
  method Judge(cfg: Config, zone: int, interval: int, failures: map<string, Failure>, key: string, e: Entry, now: int)
    returns (v: Verdict)
    requires cfg.Normal()
    ensures v == Classify(cfg, zone, interval, failures, key, e, now)
  {
    if !cfg.Usual(e, now, zone) {
      return Cold;
    }
    if BackingOff(failures, key, now) {
      return InBackoff;
    }
    var life := Max(e.cachedTtl, cfg.maxAge);
    var remaining := e.storedAt + life - now;
    if remaining <= 0 {
      return Due(true);
    }
    var threshold := Min(Max(Scaled(life, e.hitCount), MinWindow(interval)), life);
    return if remaining <= threshold then Due(false) else NotDue;
  }

  /** The verdicts of the entries not in `todo`. */
  function VerdictsBut(cfg: Config, zone: int, interval: int, failures: map<string, Failure>,
                       entries: map<string, Entry>, now: int, todo: set<string>): (seen: map<string, Verdict>)
    requires cfg.Normal()
    ensures seen.Keys == entries.Keys - todo
    ensures todo == {} ==> seen == Verdicts(cfg, zone, interval, failures, entries, now)
    ensures todo == entries.Keys ==> seen == map[]
  {
    map k | k in entries && k !in todo :: Classify(cfg, zone, interval, failures, k, entries[k], now)
  }

  lemma OneMoreSeen(cfg: Config, zone: int, interval: int, failures: map<string, Failure>, entries: map<string, Entry>,
                    now: int, todo: set<string>, key: string)
    requires cfg.Normal() && key in todo && key in entries
    ensures VerdictsBut(cfg, zone, interval, failures, entries, now, todo - {key})
            == VerdictsBut(cfg, zone, interval, failures, entries, now, todo)
                 [key := Classify(cfg, zone, interval, failures, key, entries[key], now)]
  {
    hide Classify;
  }

  /** The loop of selectCandidates over the snapshot, in whatever order the map yields it. */
  method Collect(cfg: Config, zone: int, interval: int, failures: map<string, Failure>, entries: map<string, Entry>,
                 now: int)
    returns (cands: seq<Candidate>, cold: nat, backoff: nat)
    requires cfg.Normal()
    ensures Tallied(Verdicts(cfg, zone, interval, failures, entries, now), entries, cands, cold, backoff)
  {
    hide Classify, Tallied, VerdictsBut, Verdicts;
    Nothing(entries);
    cands, cold, backoff := [], 0, 0;
    var todo := entries.Keys;
    while todo != {}
      invariant todo <= entries.Keys
      invariant Tallied(VerdictsBut(cfg, zone, interval, failures, entries, now, todo), entries, cands, cold, backoff)
      decreases |todo|
    {
      var key :| key in todo;
      var v := Judge(cfg, zone, interval, failures, key, entries[key], now);
      TallyOne(VerdictsBut(cfg, zone, interval, failures, entries, now, todo), entries, cands, cold, backoff, key, v);
      OneMoreSeen(cfg, zone, interval, failures, entries, now, todo, key);
      todo := todo - {key};
      match v {
        case Cold => cold := cold + 1;
        case InBackoff => backoff := backoff + 1;
        case NotDue =>
        case Due(overdue) => cands := cands + [Candidate(key, overdue, entries[key].hitCount)];
      }
    }
  }

  lemma Nothing(entries: map<string, Entry>)
    ensures Tallied(map[], entries, [], 0, 0)
  {
  }

  lemma PlacedIsRanked(ranked: seq<Candidate>, j: nat, c: Candidate)
    requires Ranked(ranked) && j <= |ranked|
    requires forall k :: j <= k < |ranked| ==> Outranks(c, ranked[k])
    requires j > 0 ==> !Outranks(c, ranked[j - 1])
    ensures Ranked(ranked[..j] + [c] + ranked[j..])
  {
    var more := ranked[..j] + [c] + ranked[j..];
    forall i, k | 0 <= i < k < |more|
      ensures !Outranks(more[k], more[i])
    {
      assert more[i] == if i < j then ranked[i] else if i == j then c else ranked[i - 1];
      assert more[k] == if k < j then ranked[k] else if k == j then c else ranked[k - 1];
      assert i < j - 1 ==> !Outranks(ranked[j - 1], ranked[i]);
    }
  }

  /** One step of the sort: behind every candidate it does not outrank. */
  method Place(ranked: seq<Candidate>, c: Candidate) returns (more: seq<Candidate>)
    requires Ranked(ranked)
    ensures multiset(more) == multiset(ranked) + multiset{c} && Ranked(more)
  {
    hide Ranked, Outranks;
    var j := |ranked|;
    while j > 0 && Outranks(c, ranked[j - 1])
      invariant 0 <= j <= |ranked|
      invariant forall k :: j <= k < |ranked| ==> Outranks(c, ranked[k])
    {
      j := j - 1;
    }
    PlacedIsRanked(ranked, j, c);
    more := ranked[..j] + [c] + ranked[j..];
    assert ranked == ranked[..j] + ranked[j..];
  }

  /** The sort by priority: a permutation with no candidate behind one it outranks. */
  method Sort(cands: seq<Candidate>) returns (ranked: seq<Candidate>)
    ensures multiset(ranked) == multiset(cands) && Ranked(ranked)
  {
    hide Ranked;
    ranked := [];
    assert Ranked(ranked) by { NothingRanked(); }
    for i := 0 to |cands|
      invariant multiset(ranked) == multiset(cands[..i]) && Ranked(ranked)
    {
      assert cands[..i + 1] == cands[..i] + [cands[i]];
      ranked := Place(ranked, cands[i]);
    }
    assert cands[..|cands|] == cands;
  }

  lemma NothingRanked()
    ensures Ranked([])
  {
  }

  /** Sorting keeps the candidates distinct. */
  lemma SortedIsDistinct(cands: seq<Candidate>, ranked: seq<Candidate>)
    requires Distinct(cands) && multiset(ranked) == multiset(cands)
    ensures Distinct(ranked)
  {
    forall i, j | 0 <= i < j < |ranked|
      ensures ranked[i].key != ranked[j].key
    {
      if ranked[i].key == ranked[j].key {
        assert ranked[i] in multiset(ranked) && ranked[j] in multiset(ranked);
        assert ranked[i] in cands && ranked[j] in cands;
        assert ranked[i] == ranked[j];
        CountTwice(ranked, i, j);
        CountOnce(cands, ranked[i]);
      }
    }
  }

  lemma CountTwice(s: seq<Candidate>, i: nat, j: nat)
    requires i < j < |s| && s[i] == s[j]
    ensures multiset(s)[s[i]] >= 2
  {
    assert s == s[..j] + [s[j]] + s[j + 1..];
    assert s[..j][i] == s[i];
  }

  lemma {:induction false} CountOnce(s: seq<Candidate>, c: Candidate)
    requires Distinct(s)
    ensures multiset(s)[c] <= 1
  {
    if s != [] {
      var n := |s| - 1;
      assert s == s[..n] + [s[n]];
      CountOnce(s[..n], c);
      if c == s[n] {
        forall i | 0 <= i < n
          ensures s[..n][i] != c
        {
          assert s[i].key != s[n].key;
        }
      }
    }
  }

  /** The first 500 of the sorted candidates are what a cycle may refresh: none twice, and none left out
      ranks above one that is in. */
  lemma CutPicks(verdicts: map<string, Verdict>, entries: map<string, Entry>, cands: seq<Candidate>,
                 ranked: seq<Candidate>)
    requires verdicts.Keys == entries.Keys && Collected(verdicts, entries, cands)
    requires multiset(ranked) == multiset(cands) && Ranked(ranked)
    ensures Picks(Candidates(verdicts, entries), ranked[..Min(MAX_REFRESH_PER_CYCLE, |ranked|)])
  {
    hide Outranks;
    var all := Candidates(verdicts, entries);
    var cut := Min(MAX_REFRESH_PER_CYCLE, |ranked|);
    SortedIsDistinct(cands, ranked);
    Sets.SizeOfDistinct(ranked);
    SameElements(cands, ranked);
    assert Sets.Elements(ranked) == all;
    forall c, p | c in all && c !in ranked[..cut] && p in ranked[..cut]
      ensures !Outranks(c, p)
    {
      CutKeepsBest(ranked, cut, c, p);
    }
  }

  lemma CutKeepsBest(ranked: seq<Candidate>, cut: nat, c: Candidate, p: Candidate)
    requires Ranked(ranked) && cut <= |ranked| && c in ranked && c !in ranked[..cut] && p in ranked[..cut]
    ensures !Outranks(c, p)
  {
    hide Outranks;
    assert ranked == ranked[..cut] + ranked[cut..];
    var i :| 0 <= i < |ranked| - cut && ranked[cut..][i] == c;
    var j :| 0 <= j < cut && ranked[j] == p;
    assert ranked[cut + i] == c;
  }

  lemma SameElements(a: seq<Candidate>, b: seq<Candidate>)
    requires multiset(a) == multiset(b)
    ensures forall c :: c in a <==> c in b
  {
    forall c
      ensures c in a <==> c in b
    {
      assert c in a <==> c in multiset(a);
      assert c in b <==> c in multiset(b);
    }
  }

  /** selectCandidates, by key. */
  method Select(cfg: Config, zone: int, interval: int, failures: map<string, Failure>, entries: map<string, Entry>,
                now: int)
    returns (picked: seq<Candidate>, cold: nat, backoff: nat)
    requires cfg.Normal()
    ensures var verdicts := Verdicts(cfg, zone, interval, failures, entries, now);
            && Picks(Candidates(verdicts, entries), picked)
            && cold == |ColdKeys(verdicts)| && backoff == |BackoffKeys(verdicts)|
            && cold + backoff + |NotDueKeys(verdicts)| + |DueKeys(verdicts)| == |entries|
  {
    hide NotDueKeys, DueKeys, Collected, Picks, Ranked, ColdKeys, BackoffKeys, Candidates, Classify;
    var cands;
    cands, cold, backoff := Collect(cfg, zone, interval, failures, entries, now);
    picked := Sort(cands);
    VerdictsPartition(Verdicts(cfg, zone, interval, failures, entries, now));
    CutPicks(Verdicts(cfg, zone, interval, failures, entries, now), entries, cands, picked);
    if |picked| > MAX_REFRESH_PER_CYCLE {
      picked := picked[..MAX_REFRESH_PER_CYCLE];
    } else {
      assert picked[..|picked|] == picked;
    }
  }

  // ---------------------------------------------------------------------------
  // The refresher
  // ---------------------------------------------------------------------------

  class Refresher {
    const cache: Cache
    const interval: int
    var failures: map<string, Failure>

    constructor (cache: Cache, interval: int)
      ensures this.cache == cache && this.interval == interval && failures == map[]
    {
      this.cache, this.interval, failures := cache, interval, map[];
    }

    function Env(): Server.Env
    {
      Server.Env(cache.cfg, cache.zone, interval)
    }

    /** The refresher and its cache as the state machine sees them, with nothing in flight. */
    ghost function At(now: int): Server.Server
      reads this, cache, cache.window, cache.entries.Values
    {
      Server.Server(now, cache.View(), failures, {}, now, now, 0, 0, 0)
    }

    method NoteFailure(key: string, now: int)
      modifies this`failures
      ensures failures == RefreshModel.NoteFailure(old(failures), interval, key, now)
    {
      var count := if key in failures then failures[key].count + 1 else 1;
      var shift := count;
      if shift > BACKOFF_SHIFT {
        shift := BACKOFF_SHIFT;
      }
      var wait := Wrap64(interval * Pow2(shift));
      if wait > BACKOFF_MAX || wait <= 0 {
        wait := BACKOFF_MAX;
      }
      failures := failures[key := Failure(count, now + wait)];
    }

    method NoteSuccess(key: string)
      modifies this`failures
      ensures failures == old(failures) - {key}
    {
      failures := failures - {key};
    }

    method PruneFailures(snapshot: map<string, CachedEntry>)
      modifies this`failures
      ensures failures == KeepFailures(old(failures), snapshot.Keys)
    {
      var todo := failures.Keys;
      while todo != {}
        invariant todo <= failures.Keys <= old(failures).Keys
        invariant forall k :: k in failures ==> failures[k] == old(failures)[k] && (k in todo || k in snapshot)
        invariant forall k :: k in old(failures) && k in snapshot ==> k in failures
        decreases |todo|
      {
        var k :| k in todo;
        todo := todo - {k};
        if k !in snapshot {
          failures := failures - {k};
        }
      }
    }

    /** Deletes from the cache while walking the snapshot. */
    method PruneUnused(snapshot: map<string, CachedEntry>, now: int)
      requires cache.Valid() && snapshot == cache.entries
      modifies cache`entries
      ensures cache.Valid()
      ensures cache.View() == old(cache.View()).(entries := Server.Prune(cache.cfg, old(cache.Contents()), now))
    {
      hide Keys.Key, Unused, Used;
      var todo := snapshot.Keys;
      UsedAtFirst(cache.cfg, snapshot, now);
      while todo != {}
        invariant cache.Valid() && todo <= snapshot.Keys
        invariant cache.entries == Used(cache.cfg, snapshot, now, todo)
        decreases |todo|
      {
        var k :| k in todo;
        UsedButOne(cache.cfg, snapshot, now, todo, k);
        todo := todo - {k};
        if Unused(cache.cfg, snapshot[k].Value(), now) {
          cache.Delete(k);
        }
      }
      UsedAtLast(cache.cfg, snapshot, now);
    }

    method SelectCandidates(snapshot: map<string, CachedEntry>, now: int)
      returns (toRefresh: seq<CachedEntry>, cold: nat, backoff: nat, ghost picked: seq<Candidate>)
      requires cache.cfg.Normal()
      ensures var verdicts := Verdicts(cache.cfg, cache.zone, interval, failures, Values(snapshot), now);
              cold == |ColdKeys(verdicts)| && backoff == |BackoffKeys(verdicts)|
      ensures Picks(Candidates(Verdicts(cache.cfg, cache.zone, interval, failures, Values(snapshot), now),
                               Values(snapshot)), picked)
      ensures AreObjectsOf(toRefresh, snapshot, picked)
    {
      hide Verdicts, Candidates, Picks, ColdKeys, BackoffKeys;
      var entries := Values(snapshot);
      var ranked;
      ranked, cold, backoff := Select(cache.cfg, cache.zone, interval, failures, entries, now);
      picked := ranked;
      PicksKnown(Verdicts(cache.cfg, cache.zone, interval, failures, entries, now), entries, ranked);
      toRefresh := [];
      for i := 0 to |ranked|
        invariant |toRefresh| == i
        invariant forall j :: 0 <= j < i ==> toRefresh[j] == snapshot[ranked[j].key]
      {
        toRefresh := toRefresh + [snapshot[ranked[i].key]];
      }
    }

    /** refreshCycle up to the refreshes it starts: one Tick of the state machine. */
    method RefreshCycle(now: int) returns (toRefresh: seq<CachedEntry>, ghost picked: seq<Candidate>)
      requires cache.Valid() && Env().Valid() && Server.GoodClock(Env(), now)
      modifies this`failures, cache`entries
      ensures cache.Valid()
      ensures Ticks(Env(), old(At(now)), picked, cache.View(), failures)
      ensures AreObjectsOf(toRefresh, old(cache.entries), picked)
    {
      hide Keys.Key, Verdicts, Candidates, Picks, Ticks, Server.Prune, KeepFailures, Values, AreObjectsOf, LocalDay;
      assert AreObjectsOf([], cache.entries, []) by { NoObjects(cache.entries); }
      ghost var s := At(now);
      var snapshot := cache.Snapshot();
      SnapshotValues();
      if snapshot == map[] {
        NothingToPick(Env(), s);
        return [], [];
      }
      toRefresh, picked := CycleOver(snapshot, s.cache.entries, now);
      TickIs(Env(), s, picked);
    }

    lemma SnapshotValues()
      ensures Values(cache.entries) == cache.Contents()
    {
    }

    /** The cycle of a cache that is not empty; `before` are its entries when the snapshot was taken. */
    method CycleOver(snapshot: map<string, CachedEntry>, ghost before: map<string, Entry>, now: int)
      returns (toRefresh: seq<CachedEntry>, ghost picked: seq<Candidate>)
      requires cache.Valid() && cache.cfg.Normal() && snapshot == cache.entries
      requires before == Values(snapshot) == cache.Contents()
      modifies this`failures, cache`entries
      ensures cache.Valid() && failures == KeepFailures(old(failures), before.Keys)
      ensures cache.View() == old(cache.View()).(entries := Server.Prune(cache.cfg, before, now))
      ensures Picks(Candidates(Verdicts(cache.cfg, cache.zone, interval, failures, before, now), before), picked)
      ensures AreObjectsOf(toRefresh, snapshot, picked)
    {
      hide Keys.Key, Verdicts, Candidates, Picks, Server.Prune, KeepFailures, Values, AreObjectsOf;
      PruneFailures(snapshot);
      assert Values(snapshot) == before && cache.Contents() == before;
      PruneUnused(snapshot, now);
      assert Values(snapshot) == before;
      var cold, backoff;
      toRefresh, cold, backoff, picked := SelectCandidates(snapshot, now);
    }

    /** refreshEntry, with what the upstream returned: one Refreshed or RefreshFailed of the state
        machine. */
    method RefreshEntry(e: CachedEntry, outcome: Option<Msg>, now: int) returns (victim: Option<string>)
      requires cache.Valid()
      modifies this`failures, cache`entries
      ensures cache.Valid()
      ensures var q := Question(e.name, e.qtype);
              if outcome.Some? && outcome.value.rcode == RCODE_SUCCESS then
                && failures == old(failures) - {Server.QKey(q)}
                && MayEvict(cache.cfg, old(cache.Contents()), Server.QKey(q), now, victim)
                && cache.View() == CacheModel.Set(cache.cfg, cache.zone, old(cache.View()), q, outcome.value,
                                                  Server.RefreshTtl(outcome.value), now, victim)
              else
                && failures == RefreshModel.NoteFailure(old(failures), interval, Server.QKey(q), now)
                && cache.View() == old(cache.View())
    {
      hide Keys.Key, RefreshModel.NoteFailure, CacheModel.Set, MayEvict;
      victim := None;
      var key := e.Key();
      if outcome.None? || outcome.value.rcode != RCODE_SUCCESS {
        NoteFailure(key, now);
        return;
      }
      var resp := outcome.value;
      var ttl := if resp.answer != [] then resp.answer[0].ttl else 0;
      if ttl == 0 {
        ttl := 60;
      }
      NoteSuccess(key);
      victim := cache.Set(Question(e.name, e.qtype), resp, ttl, now);
    }
  }

  lemma NoObjects(snapshot: map<string, CachedEntry>)
    ensures AreObjectsOf([], snapshot, [])
  {
  }

  lemma PicksKnown(verdicts: map<string, Verdict>, entries: map<string, Entry>, picked: seq<Candidate>)
    requires verdicts.Keys == entries.Keys && Picks(Candidates(verdicts, entries), picked)
    ensures forall i :: 0 <= i < |picked| ==> picked[i].key in entries
  {
    forall i | 0 <= i < |picked|
      ensures picked[i].key in entries
    {
      assert picked[i] in Candidates(verdicts, entries);
    }
  }

  /** The snapshot's own objects, in the order of their candidates. */
  predicate AreObjectsOf(toRefresh: seq<CachedEntry>, snapshot: map<string, CachedEntry>, picked: seq<Candidate>)
  {
    && |toRefresh| == |picked|
    && forall i :: 0 <= i < |picked| ==> picked[i].key in snapshot && toRefresh[i] == snapshot[picked[i].key]
  }

  /** A Tick of the state machine that picks these candidates and leaves this cache and these failures. */
  ghost predicate Ticks(env: Server.Env, s: Server.Server, picked: seq<Candidate>, cache: State,
                        failures: map<string, Failure>)
    requires Server.Sane(env, s)
  {
    && Server.Enabled(env, s, Server.Tick(picked))
    && var after := Server.Apply(env, s, Server.Tick(picked));
       after.cache == cache && after.failures == failures && after.jobs == Server.KeysOf(picked)
  }

  lemma NothingToPick(env: Server.Env, s: Server.Server)
    requires Server.Sane(env, s) && s.cache.entries == map[] && s.jobs == {}
    ensures Ticks(env, s, [], s.cache, s.failures)
  {
    assert Server.TickCandidates(env, s) == {};
  }

  /** What a Tick does to a cache that is not empty. */
  lemma TickIs(env: Server.Env, s: Server.Server, picked: seq<Candidate>)
    requires Server.Sane(env, s) && s.cache.entries != map[] && s.jobs == {}
    requires var kept := KeepFailures(s.failures, s.cache.entries.Keys);
             Picks(Candidates(Verdicts(env.cfg, env.zone, env.interval, kept, s.cache.entries, s.now), s.cache.entries),
                   picked)
    ensures Ticks(env, s, picked, s.cache.(entries := Server.Prune(env.cfg, s.cache.entries, s.now)),
                  KeepFailures(s.failures, s.cache.entries.Keys))
  {
    hide Picks, Verdicts, Candidates, Server.Prune, KeepFailures;
  }

  // ---------------------------------------------------------------------------
  // The loop of pruneUnused
  // ---------------------------------------------------------------------------

  function Values(snapshot: map<string, CachedEntry>): (entries: map<string, Entry>)
    reads snapshot.Values
    ensures entries.Keys == snapshot.Keys
  {
    map k | k in snapshot :: snapshot[k].Value()
  }

  /** What is left of the snapshot while `todo` is still to be looked at. */
  ghost function Used(cfg: Config, snapshot: map<string, CachedEntry>, now: int, todo: set<string>)
    : map<string, CachedEntry>
    reads snapshot.Values
  {
    map k | k in snapshot && (k in todo || !Unused(cfg, snapshot[k].Value(), now)) :: snapshot[k]
  }

  lemma UsedAtFirst(cfg: Config, snapshot: map<string, CachedEntry>, now: int)
    ensures Used(cfg, snapshot, now, snapshot.Keys) == snapshot
  {
  }

  lemma UsedButOne(cfg: Config, snapshot: map<string, CachedEntry>, now: int, todo: set<string>, k: string)
    requires k in todo && k in snapshot
    ensures Used(cfg, snapshot, now, todo - {k})
            == if Unused(cfg, snapshot[k].Value(), now) then Used(cfg, snapshot, now, todo) - {k}
               else Used(cfg, snapshot, now, todo)
  {
    hide Unused;
  }

  lemma UsedAtLast(cfg: Config, snapshot: map<string, CachedEntry>, now: int)
    ensures Values(Used(cfg, snapshot, now, {})) == Server.Prune(cfg, Values(snapshot), now)
    ensures forall k :: k in Used(cfg, snapshot, now, {}) ==>
              k in snapshot && Used(cfg, snapshot, now, {})[k] == snapshot[k]
  {
    hide Unused;
  }
}
