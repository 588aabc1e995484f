/** The limits config.go puts on the cache section of the configuration, and the configuration main.go
    makes of it. */
module Settings {
  import opened Bits
  import opened Clock
  import Entries

  const DEFAULT_WINDOW: int := 7

  /** Times in whole seconds. */
  datatype CacheSection = CacheSection(ttlMin: int, ttlMax: int, refreshInterval: int, staleServing: bool,
                                       maxEntries: int, maxAge: int, keepMinDays: int, keepWindowDays: int)
  {
    predicate WithinLimits()
    {
      1 <= keepMinDays <= keepWindowDays <= MASK_DAYS && maxAge >= 0
    }

    function ToConfig(): Entries.Config
    {
      Entries.Config(ttlMin * SECOND, ttlMax * SECOND, maxEntries, staleServing, maxAge * SECOND, keepMinDays,
                     keepWindowDays)
    }
  }

  function Distance(a: int, b: int): nat
  {
    if a < b then b - a else a - b
  }

  /** A window out of range becomes seven days, the other two values move to the nearest one allowed, and
      nothing else changes. */
  ghost predicate Normalizes(before: CacheSection, after: CacheSection)
  {
    && after.WithinLimits()
    && after == before.(maxAge := after.maxAge, keepMinDays := after.keepMinDays,
                        keepWindowDays := after.keepWindowDays)
    && after.keepWindowDays == (if 1 <= before.keepWindowDays <= MASK_DAYS then before.keepWindowDays
                                else DEFAULT_WINDOW)
    && (forall v :: 1 <= v <= after.keepWindowDays ==>
          Distance(before.keepMinDays, after.keepMinDays) <= Distance(before.keepMinDays, v))
    && forall v :: 0 <= v ==> Distance(before.maxAge, after.maxAge) <= Distance(before.maxAge, v)
  }

  class Config {
    var ttlMin: int
    var ttlMax: int
    var refreshInterval: int
    var staleServing: bool
    var maxEntries: int
    var maxAge: int
    var keepMinDays: int
    var keepWindowDays: int

    constructor (c: CacheSection)
      ensures Value() == c
    {
      ttlMin, ttlMax, refreshInterval, staleServing := c.ttlMin, c.ttlMax, c.refreshInterval, c.staleServing;
      maxEntries, maxAge, keepMinDays, keepWindowDays := c.maxEntries, c.maxAge, c.keepMinDays, c.keepWindowDays;
    }

    function Value(): CacheSection
      reads this
    {
      CacheSection(ttlMin, ttlMax, refreshInterval, staleServing, maxEntries, maxAge, keepMinDays, keepWindowDays)
    }

    method Normalize()
      modifies this
      ensures Normalizes(old(Value()), Value())
    {
      if keepWindowDays < 1 || keepWindowDays > MASK_DAYS {
        keepWindowDays := DEFAULT_WINDOW;
      }
      if keepMinDays < 1 || keepMinDays > keepWindowDays {
        keepMinDays := Min(Max(keepMinDays, 1), keepWindowDays);
      }
      if maxAge < 0 {
        maxAge := 0;
      }
    }
  }

  /** Exactly the values within the limits are left alone; normalizing twice is normalizing once. */
  lemma UnchangedIffWithinLimits(before: CacheSection, after: CacheSection)
    requires Normalizes(before, after)
    ensures after == before <==> before.WithinLimits()
    ensures after.ToConfig().Normal()
  {
    if before.WithinLimits() {
      assert Distance(before.keepMinDays, before.keepMinDays) == 0;
      assert Distance(before.maxAge, before.maxAge) == 0;
    }
  }

  /** The limits determine the result. */
  lemma NormalizedIsUnique(before: CacheSection, a: CacheSection, b: CacheSection)
    requires Normalizes(before, a) && Normalizes(before, b)
    ensures a == b
  {
    assert Distance(before.keepMinDays, a.keepMinDays) == Distance(before.keepMinDays, b.keepMinDays);
    assert Distance(before.maxAge, a.maxAge) == Distance(before.maxAge, b.maxAge);
    if 1 <= before.keepMinDays <= a.keepWindowDays {
      assert Distance(before.keepMinDays, before.keepMinDays) == 0;
    }
    if before.maxAge >= 0 {
      assert Distance(before.maxAge, before.maxAge) == 0;
    }
  }

  /** The cache gets the same values, with times as nanoseconds. */
  lemma ToConfigInNumbers(c: CacheSection)
    ensures var cfg := c.ToConfig();
            && cfg.ttlMin == c.ttlMin * 1_000_000_000 && cfg.ttlMax == c.ttlMax * 1_000_000_000
            && cfg.maxAge == c.maxAge * 1_000_000_000 && cfg.maxEntries == c.maxEntries
            && cfg.staleServing == c.staleServing && cfg.keepMinDays == c.keepMinDays
            && cfg.keepWindowDays == c.keepWindowDays
            && cfg.KeepWindow() == c.keepWindowDays * 86_400_000_000_000
  {
  }
}
