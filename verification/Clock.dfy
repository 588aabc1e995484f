/** Instants and durations in integer nanoseconds, and the local calendar days of cache/entry.go. */
module Clock {
  const SECOND: int := 1_000_000_000
  const MINUTE: int := 60 * SECOND
  const HOUR: int := 60 * MINUTE
  const DAY: int := 24 * HOUR

  function Max(a: int, b: int): int
  {
    if a >= b then a else b
  }

  function Min(a: int, b: int): int
  {
    if a <= b then a else b
  }

  /** x / 86400 of the source, whose integer division goes towards zero. */
  function Days(x: int): int
  {
    if x >= 0 then x / 86400 else -(-x / 86400)
  }

  /** time.Time.Unix: whole seconds, rounded down. */
  function Unix(t: int): int
  {
    t / SECOND
  }

  /** The local calendar day of t in a zone `offset` seconds east of UTC. */
  function LocalDay(t: int, offset: int): int
  {
    Days(Unix(t) + offset)
  }

  lemma LocalDayMonotone(s: int, t: int, offset: int)
    requires s <= t
    ensures LocalDay(s, offset) <= LocalDay(t, offset)
  {
  }

  /** More than w days apart on the clock means at least w calendar days apart, unless the zone moved
      back in between. */
  lemma DaysApart(s: int, t: int, w: nat, before: int, after: int)
    requires t - s > w * DAY && before <= after && Unix(s) + before >= 0
    ensures LocalDay(t, after) - LocalDay(s, before) >= w
  {
    var a := Unix(s) + before;
    var b := Unix(t) + after;
    assert b >= a + w * 86400 by {
      assert t >= s + w * (86400 * SECOND);
    }
    assert (a + w * 86400) / 86400 == a / 86400 + w;
  }

  /** A zone that moves back by at most a day costs at most one of the w calendar days. */
  lemma DaysApartButOne(s: int, t: int, w: nat, before: int, after: int)
    requires w >= 1 && t - s > w * DAY && before - after <= 86400 && Unix(s) + before >= 0
    ensures LocalDay(t, after) - LocalDay(s, before) >= w - 1
  {
    DaysApart(s, t - DAY, w - 1, before, before);
    assert Unix(t - DAY) == Unix(t) - 86400;
    DaysMonotone(Unix(t - DAY) + before, Unix(t) + after);
  }

  lemma DaysMonotone(x: int, y: int)
    requires x <= y
    ensures Days(x) <= Days(y)
  {
  }

  /** The zone's part in DaysApart: for gaps of any number w of days, more than w days on the clock give w
      calendar days at every instant exactly when the zone did not move back. */
  lemma DaysApartNeedsZone(w: nat, before: int, after: int)
    requires w >= 1
    ensures (forall s, t :: t - s > w * DAY && Unix(s) + before >= 0 && Unix(s) + after >= 0
                            ==> LocalDay(t, after) - LocalDay(s, before) >= w)
            <==> before <= after
  {
    if before <= after {
      forall s, t | t - s > w * DAY && Unix(s) + before >= 0
        ensures LocalDay(t, after) - LocalDay(s, before) >= w
      {
        DaysApart(s, t, w, before, after);
      }
    } else {
      var s := LateStart(w, before, after);
      assert LocalDay(s + w * DAY + 1, after) - LocalDay(s, before) < w;
    }
  }

  /** The first second of a day before the zone goes back; w days later it is still a day short. */
  lemma LateStart(w: nat, before: int, after: int) returns (s: int)
    requires before > after
    ensures s >= 0 && Unix(s) + before >= 0 && Unix(s) + after >= 0
    ensures 0 <= LocalDay(s + w * DAY + 1, after) < LocalDay(s, before) + w
    ensures LocalDay(s, before) == Max(1, before - after) + Max(0, -after) + Max(0, before)
  {
    var k := Max(1, before - after) + Max(0, -after) + Max(0, before);
    var first := 86400 * k - before;
    s := first * SECOND;
    var t := s + w * DAY + 1;
    assert Unix(s) == first;
    assert Unix(t) == first + w * 86400;
    assert (86400 * k) / 86400 == k;
    assert 0 <= Unix(t) + after < 86400 * (k + w);
  }

  /** A local day is 86400 seconds of the zone's clock, counted from 1970. */
  lemma LocalDayInNanoseconds(t: int, offset: int, day: nat)
    requires Unix(t) + offset >= 0
    ensures LocalDay(t, offset) == day
            <==> day * 86_400_000_000_000 <= t + offset * 1_000_000_000 < (day + 1) * 86_400_000_000_000
  {
    var seconds := Unix(t) + offset;
    assert seconds == 86400 * (seconds / 86400) + seconds % 86400;
    assert t == 1_000_000_000 * Unix(t) + t % 1_000_000_000;
  }
}
