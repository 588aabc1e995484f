/** The packed usage history of cache/entry.go: one 64-bit word whose high half is the last day a
    client used a name and whose low half is a mask in which bit i stands for that day minus i.
    The word is proved to stand for a plain set of days. */
module UsageDays {
  import opened Bits
  import Clock

  const DAY_LIMIT: int := 0x1_0000_0000

  // ---------------------------------------------------------------------------
  // The word and the source's operations on it
  // ---------------------------------------------------------------------------

  function High(w: bv64): bv32
  {
    (w >> 32) as bv32
  }

  /** uint32(w) */
  function Mask(w: bv64): bv32
  {
    (w & 0xFFFF_FFFF) as bv32
  }

  function Glue(high: bv32, low: bv32): bv64
  {
    ((high as bv64) << 32) | (low as bv64)
  }

  /** int64(w >> 32) */
  function LastDay(w: bv64): nat
  {
    ValueOf(High(w))
  }

  /** uint64(day)<<32 | uint64(mask). The conversion of an int64 to uint64 keeps the value modulo
      2^64, of which the shift leaves the low 32 bits. */
  function Join(day: int, mask: bv32): bv64
  {
    Glue(BitsOf(day % DAY_LIMIT), mask)
  }

  function Pack(day: int): bv64
  {
    Join(day, 1)
  }

  /** The word MarkUsed stores over `word`, one pass of its loop. */
  function Mark(word: bv64, today: int): bv64
  {
    var shift := today - LastDay(word);
    if shift >= MASK_DAYS then Pack(today)
    else if shift <= 0 then word | 1
    else Join(today, OrOne(Shl(Mask(word), shift)))
  }

  function MarkAll(w: bv64, days: seq<int>): bv64
    decreases |days|
  {
    if days == [] then w else MarkAll(Mark(w, days[0]), days[1..])
  }

  function DaysUsed(w: bv64, today: int, window: int): int
    requires 1 <= window <= MASK_DAYS
  {
    if w == 0 then 0
    else
      var shift := Clock.Max(today - LastDay(w), 0);
      if shift >= window then 0
      else
        OnesCount(And(Mask(w), Keep(window - shift)))
  }

  // ---------------------------------------------------------------------------
  // Packing
  // ---------------------------------------------------------------------------

  lemma SplitGlue(high: bv32, low: bv32)
    ensures High(Glue(high, low)) == high && Mask(Glue(high, low)) == low
  {
  }

  lemma SplitJoin(day: nat, mask: bv32)
    requires day < DAY_LIMIT
    ensures LastDay(Join(day, mask)) == day && Mask(Join(day, mask)) == mask
  {
    ValueOfBitsOf(day);
    SplitGlue(BitsOf(day), mask);
  }

  lemma SplitOrOne(w: bv64)
    ensures High(w | 1) == High(w) && Mask(w | 1) == OrOne(Mask(w))
  {
  }

  lemma MarkPastMask(w: bv64, day: int)
    requires day < DAY_LIMIT && day - LastDay(w) >= MASK_DAYS
    ensures LastDay(Mark(w, day)) == day && Mask(Mark(w, day)) == 1
  {
    SplitJoin(day, 1);
  }

  lemma MarkSameDay(w: bv64, day: int)
    requires day <= LastDay(w)
    ensures LastDay(Mark(w, day)) == LastDay(w) && Mask(Mark(w, day)) == OrOne(Mask(w))
  {
    SplitOrOne(w);
  }

  lemma MarkLaterDay(w: bv64, day: int)
    requires day < DAY_LIMIT && 0 < day - LastDay(w) < MASK_DAYS
    ensures LastDay(Mark(w, day)) == day
    ensures Mask(Mark(w, day)) == OrOne(Shl(Mask(w), day - LastDay(w)))
  {
    SplitJoin(day, OrOne(Shl(Mask(w), day - LastDay(w))));
  }

  lemma MaskOfZero()
    ensures Mask(0) == 0
  {
  }

  /** A word that already records `day`: MarkUsed returns without writing it. */
  predicate Settled(w: bv64, day: int)
  {
    day <= LastDay(w) && Odd(Mask(w))
  }

  lemma SetLowBit(w: bv64)
    ensures w | 1 == w <==> Odd(Mask(w))
  {
  }

  lemma MarkSettles(w: bv64, day: int)
    requires day < DAY_LIMIT
    ensures LastDay(Mark(w, day)) == Clock.Max(day, LastDay(w))
    ensures Odd(Mask(Mark(w, day)))
  {
    if day - LastDay(w) >= MASK_DAYS {
      MarkPastMask(w, day);
    } else if day <= LastDay(w) {
      MarkSameDay(w, day);
    } else {
      MarkLaterDay(w, day);
    }
  }

  lemma NoWriteIffSettled(w: bv64, day: int)
    requires day < DAY_LIMIT
    ensures Mark(w, day) == w <==> Settled(w, day)
  {
    MarkSettles(w, day);
    SetLowBit(w);
  }

  /** A fresh entry's word is the first MarkUsed on an empty history. */
  lemma PackIsFirstMark(day: int)
    requires 0 <= day < DAY_LIMIT
    ensures Mark(0, day) == Pack(day) && LastDay(Pack(day)) == day && Settled(Pack(day), day)
  {
    SplitJoin(day, 1);
    BitOfOne(0);
    EmptyJoin(day);
  }

  lemma EmptyJoin(day: int)
    requires 0 <= day < DAY_LIMIT
    ensures Mark(0, day) == Pack(day)
  {
    assert High(0) == 0;
    MaskOfZero();
    if day == 0 {
      assert Glue(0, 1) == 1;
    } else if day < MASK_DAYS {
      ShlOfZero(day);
    }
  }

  lemma {:induction false} ShlOfZero(s: nat)
    ensures Shl(0, s) == 0 && OrOne(0) == 1
  {
    if s > 0 {
      ShlOfZero(s - 1);
    }
  }

  // ---------------------------------------------------------------------------
  // The set of days a word stands for
  // ---------------------------------------------------------------------------

  /** The history without packing: every day recorded so far, and the largest of them. */
  datatype History = History(last: nat, days: set<int>)

  const NO_HISTORY: History := History(0, {})

  /** Recording a day: a clock that went back counts as the last known day. */
  function Insert(h: History, day: int): History
  {
    var d := Clock.Max(day, h.last);
    History(d, h.days + {d})
  }

  function InsertAll(h: History, days: seq<int>): History
    decreases |days|
  {
    if days == [] then h else InsertAll(Insert(h, days[0]), days[1..])
  }

  /** The word holds exactly the part of the history that falls in the 32 days ending at the last one. */
  ghost predicate Represents(w: bv64, h: History)
  {
    Holds(LastDay(w), Mask(w), h)
  }

  ghost predicate Holds(last: int, m: bv32, h: History)
  {
    && last == h.last
    && (forall d :: d in h.days ==> d <= h.last)
    && forall i: nat :: i < MASK_DAYS ==> (Bit(m, i) <==> last - i in h.days)
  }

  lemma EmptyWord()
    ensures Represents(0, NO_HISTORY)
  {
    forall i: nat | i < MASK_DAYS
      ensures !Bit(Mask(0), i)
    {
      BitOfZero(i);
    }
  }

  lemma HoldsOne(last: int, m: bv32, h: History, day: nat)
    requires Holds(last, m, h) && day - last >= MASK_DAYS
    ensures Holds(day, 1, Insert(h, day))
  {
    forall i: nat | i < MASK_DAYS
      ensures Bit(1, i) <==> day - i in Insert(h, day).days
    {
      BitOfOne(i);
    }
  }

  lemma HoldsOrOne(last: int, m: bv32, h: History, day: int)
    requires Holds(last, m, h) && day <= last
    ensures Holds(last, OrOne(m), Insert(h, day))
  {
    forall i: nat | i < MASK_DAYS
      ensures Bit(OrOne(m), i) <==> last - i in Insert(h, day).days
    {
      BitOrOne(m, i);
    }
  }

  lemma HoldsShifted(last: int, m: bv32, h: History, shift: nat)
    requires Holds(last, m, h) && 0 < shift < MASK_DAYS
    ensures Holds(last + shift, OrOne(Shl(m, shift)), Insert(h, last + shift))
  {
    forall i: nat | i < MASK_DAYS
      ensures Bit(OrOne(Shl(m, shift)), i) <==> last + shift - i in Insert(h, last + shift).days
    {
      BitOrOne(Shl(m, shift), i);
      BitShl(m, shift, i);
      if i >= shift {
        assert last + shift - i == last - (i - shift);
      }
    }
  }

  /** One MarkUsed records one day in the set, whatever the gap since the last use: none, backwards,
      within the mask or past it. */
  lemma MarkRefinesInsert(w: bv64, h: History, day: int)
    requires Represents(w, h) && day < DAY_LIMIT
    ensures Represents(Mark(w, day), Insert(h, day))
  {
    var shift := day - LastDay(w);
    if shift >= MASK_DAYS {
      MarkPastMask(w, day);
      HoldsOne(LastDay(w), Mask(w), h, day);
    } else if shift <= 0 {
      MarkSameDay(w, day);
      HoldsOrOne(LastDay(w), Mask(w), h, day);
    } else {
      MarkLaterDay(w, day);
      HoldsShifted(LastDay(w), Mask(w), h, shift);
    }
  }

  /** A new entry's word holds its insertion day alone. */
  lemma PackIsOneDay(day: int)
    requires 0 <= day < DAY_LIMIT
    ensures Represents(Pack(day), History(day, {day}))
  {
    hide Represents, Mark, Pack;
    PackIsFirstMark(day);
    EmptyWord();
    MarkRefinesInsert(0, NO_HISTORY, day);
    assert Insert(NO_HISTORY, day) == History(day, {day});
  }

  /** For every sequence of MarkUsed calls, the clock going back or not, the word is the set of days
      recorded, cut to the last 32 days. */
  lemma {:induction false} MarkAllRefinesSet(w: bv64, h: History, days: seq<int>)
    requires Represents(w, h)
    requires forall i :: 0 <= i < |days| ==> days[i] < DAY_LIMIT
    ensures Represents(MarkAll(w, days), InsertAll(h, days))
    decreases |days|
  {
    if days != [] {
      MarkRefinesInsert(w, h, days[0]);
      MarkAllRefinesSet(Mark(w, days[0]), Insert(h, days[0]), days[1..]);
    }
  }

  // ---------------------------------------------------------------------------
  // Counting
  // ---------------------------------------------------------------------------

  /** The days a mask names through its n low bits. */
  ghost function DaysOf(last: int, m: bv32, n: nat): set<int>
  {
    set i: nat | i < n && Bit(m, i) :: last - i
  }

  lemma {:induction false} OnesCountsDays(last: int, m: bv32, n: nat)
    ensures OnesBelow(m, n) == |DaysOf(last, m, n)|
  {
    if n == 0 {
      assert DaysOf(last, m, n) == {};
    } else {
      OnesCountsDays(last, m, n - 1);
      var rest := DaysOf(last, m, n - 1);
      assert last - (n - 1) !in rest;
      assert DaysOf(last, m, n) == rest + if Bit(m, n - 1) then {last - (n - 1)} else {};
    }
  }

  /** The recorded days among the `window` days that end at max(today, last day). */
  ghost function InWindow(h: History, today: int, window: int): set<int>
  {
    set d | d in h.days && Clock.Max(today, h.last) - window < d
  }

  /** The shift, mask and population count give the number of days in the window, today's day
      included, for every window the mask covers. */
  lemma DaysUsedCountsWindow(w: bv64, h: History, today: int, window: int)
    requires Represents(w, h) && 1 <= window <= MASK_DAYS
    ensures DaysUsed(w, today, window) == |InWindow(h, today, window)|
  {
    var shift := Clock.Max(today - LastDay(w), 0);
    if w == 0 {
      MaskOfZero();
      NothingRecorded(h, today, window);
    } else if shift >= window {
      assert InWindow(h, today, window) == {};
    } else {
      KeptCountsWindow(Mask(w), h, window - shift, today, window);
    }
  }

  lemma KeptCountsWindow(m: bv32, h: History, k: nat, today: int, window: int)
    requires Holds(h.last, m, h)
    requires k <= MASK_DAYS && Clock.Max(today, h.last) - window == h.last - k
    ensures OnesCount(And(m, Keep(k))) == |InWindow(h, today, window)|
  {
    var kept := And(m, Keep(k));
    forall i: nat | i < MASK_DAYS
      ensures Bit(kept, i) <==> i < k && h.last - i in h.days
    {
      BitAnd(m, Keep(k), i);
      BitOfKeep(k, i);
    }
    OnesCountsDays(h.last, kept, MASK_DAYS);
    DaysOfIsWindow(h, kept, k, today, window);
  }

  lemma DaysOfIsWindow(h: History, kept: bv32, k: nat, today: int, window: int)
    requires k <= MASK_DAYS && Clock.Max(today, h.last) - window == h.last - k
    requires forall d :: d in h.days ==> d <= h.last
    requires forall i: nat :: i < MASK_DAYS ==> (Bit(kept, i) <==> i < k && h.last - i in h.days)
    ensures DaysOf(h.last, kept, MASK_DAYS) == InWindow(h, today, window)
  {
    forall d | d in InWindow(h, today, window)
      ensures d in DaysOf(h.last, kept, MASK_DAYS)
    {
      var i: nat := h.last - d;
      assert i < MASK_DAYS && h.last - i == d;
      assert Bit(kept, i);
    }
  }

  lemma NothingRecorded(h: History, today: int, window: int)
    requires Holds(h.last, 0, h) && window <= MASK_DAYS
    ensures InWindow(h, today, window) == {}
  {
    forall d | d in h.days && h.last - MASK_DAYS < d
      ensures false
    {
      var i: nat := h.last - d;
      assert h.last - i == d && i < MASK_DAYS;
      BitOfZero(i);
    }
  }

  /** On the last day before the window leaves the last use behind, at most that use is counted. */
  lemma OneDayLeft(w: bv64, today: int, window: int)
    requires 1 <= window <= MASK_DAYS && today - LastDay(w) >= window - 1
    ensures DaysUsed(w, today, window) <= 1
  {
    hide Keep;
    LowBitOnly(Mask(w), 32);
  }

  lemma {:induction false} LowBitOnly(m: bv32, n: nat)
    requires n <= 32
    ensures OnesBelow(And(m, Keep(1)), n) <= if n == 0 then 0 else 1
  {
    hide Keep, Bit;
    if n > 0 {
      LowBitOnly(m, n - 1);
      BitAnd(m, Keep(1), n - 1);
      BitOfKeep(1, n - 1);
    }
  }
}
