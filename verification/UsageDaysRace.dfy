/** MarkUsed called from many goroutines at once (cache/entry.go): each loads the word, computes the next
    one and compare-and-swaps it, retrying when another call got there first. Any interleaving is the
    calls one after another, and no call retries more often than there are days in play. */
module UsageDaysRace {
  import opened Bits
  import opened Sets
  import opened UsageDays

  datatype Call =
    | Ready(day: int)
    | Loaded(day: int, seen: bv64)
    | Done(day: int)

  /** `order` lists the finished calls in the order in which they take effect. */
  datatype System = System(word: bv64, calls: seq<Call>, order: seq<nat>)

  function Start(word: bv64, days: seq<int>): System
  {
    System(word, seq(|days|, i requires 0 <= i < |days| => Ready(days[i])), [])
  }

  predicate Enabled(s: System, i: nat)
  {
    i < |s.calls| && !s.calls[i].Done?
  }

  /** One atomic step of call i: the load, or the compare-and-swap with its outcome. */
  function Next(s: System, i: nat): (s': System)
    requires Enabled(s, i)
    ensures |s'.calls| == |s.calls|
  {
    match s.calls[i]
    case Ready(day) => s.(calls := s.calls[i := Loaded(day, s.word)])
    case Loaded(day, seen) =>
      var next := Mark(seen, day);
      if next == seen then s.(calls := s.calls[i := Done(day)], order := s.order + [i])
      else if s.word == seen then System(next, s.calls[i := Done(day)], s.order + [i])
      else s.(calls := s.calls[i := Ready(day)])
  }

  ghost predicate Legal(s: System, schedule: seq<nat>)
    decreases |schedule|
  {
    schedule == [] || (Enabled(s, schedule[0]) && Legal(Next(s, schedule[0]), schedule[1..]))
  }

  ghost function Exec(s: System, schedule: seq<nat>): (s': System)
    requires Legal(s, schedule)
    ensures |s'.calls| == |s.calls|
    decreases |schedule|
  {
    if schedule == [] then s else Exec(Next(s, schedule[0]), schedule[1..])
  }

  // ---------------------------------------------------------------------------
  // Every interleaving is a sequence of whole calls
  // ---------------------------------------------------------------------------

  /** The days of the calls in `order`. */
  ghost function Picked(days: seq<int>, order: seq<nat>): seq<int>
    requires forall k :: 0 <= k < |order| ==> order[k] < |days|
  {
    seq(|order|, k requires 0 <= k < |order| => days[order[k]])
  }

  /** `word` came from `seen` by calls that took effect since. */
  predicate Grew(seen: bv64, word: bv64)
  {
    LastDay(seen) <= LastDay(word) && (Odd(Mask(seen)) ==> Odd(Mask(word)))
  }

  lemma GrewTransitive(a: bv64, b: bv64, c: bv64)
    requires Grew(a, b) && Grew(b, c)
    ensures Grew(a, c)
  {
  }

  ghost predicate SameCalls(days: seq<int>, s: System)
  {
    && |s.calls| == |days|
    && forall i :: 0 <= i < |days| ==> s.calls[i].day == days[i] && days[i] < DAY_LIMIT
  }

  ghost predicate LoadsAreOlder(s: System)
  {
    forall i :: 0 <= i < |s.calls| && s.calls[i].Loaded? ==> Grew(s.calls[i].seen, s.word)
  }

  /** The finished calls, each once. */
  ghost predicate OrderOfDone(s: System)
  {
    && (forall k :: 0 <= k < |s.order| ==> s.order[k] < |s.calls| && s.calls[s.order[k]].Done?)
    && (forall j, k :: 0 <= j < k < |s.order| ==> s.order[j] != s.order[k])
    && (forall i: nat :: i < |s.calls| && s.calls[i].Done? ==> i in s.order)
  }

  ghost predicate Inv(word0: bv64, days: seq<int>, s: System)
  {
    && SameCalls(days, s)
    && LoadsAreOlder(s)
    && OrderOfDone(s)
    && s.word == MarkAll(word0, Picked(days, s.order))
  }

  lemma {:induction false} MarkAllAppend(w: bv64, days: seq<int>, day: int)
    ensures MarkAll(w, days + [day]) == Mark(MarkAll(w, days), day)
    decreases |days|
  {
    if days == [] {
      assert MarkAll(w, [day]) == MarkAll(Mark(w, day), [day][1..]);
    } else {
      assert (days + [day])[1..] == days[1..] + [day];
      MarkAllAppend(Mark(w, days[0]), days[1..], day);
    }
  }

  /** A call that finishes takes effect on the current word, even when it decided on an older one. */
  lemma FinishTakesEffectNow(seen: bv64, word: bv64, day: int)
    requires Grew(seen, word) && day < DAY_LIMIT && Mark(seen, day) == seen
    ensures Mark(word, day) == word
  {
    NoWriteIffSettled(seen, day);
    NoWriteIffSettled(word, day);
  }

  lemma WriteGrows(word: bv64, day: int)
    requires day < DAY_LIMIT
    ensures Grew(word, Mark(word, day))
  {
    MarkSettles(word, day);
  }

  /** What a step of call i does to the word. */
  lemma StepEffect(days: seq<int>, s: System, i: nat)
    requires SameCalls(days, s) && LoadsAreOlder(s) && Enabled(s, i)
    ensures Grew(s.word, Next(s, i).word)
    ensures Next(s, i).word == if Next(s, i).calls[i].Done? then Mark(s.word, days[i]) else s.word
  {
    if s.calls[i].Loaded? {
      var seen := s.calls[i].seen;
      if Mark(seen, days[i]) == seen {
        FinishTakesEffectNow(seen, s.word, days[i]);
      } else {
        WriteGrows(s.word, days[i]);
      }
    }
  }

  lemma StepOrders(s: System, i: nat)
    requires Enabled(s, i)
    ensures Next(s, i).order == if Next(s, i).calls[i].Done? then s.order + [i] else s.order
  {
  }

  lemma MoveKeepsOrder(s: System, s': System, i: nat)
    requires OrderOfDone(s) && OnlyMoves(s, s', i) && !s.calls[i].Done?
    requires s'.order == if s'.calls[i].Done? then s.order + [i] else s.order
    ensures OrderOfDone(s')
  {
    if s'.calls[i].Done? {
      assert s'.order[|s.order|] == i;
    }
  }

  lemma StepKeepsCalls(days: seq<int>, s: System, i: nat)
    requires SameCalls(days, s) && Enabled(s, i)
    ensures SameCalls(days, Next(s, i))
  {
  }

  /** Only call i moves, and a load sees the current word. */
  ghost predicate OnlyMoves(s: System, s': System, i: nat)
  {
    && i < |s.calls| == |s'.calls|
    && (forall j :: 0 <= j < |s.calls| && j != i ==> s'.calls[j] == s.calls[j])
    && (s'.calls[i].Loaded? ==> s'.calls[i].seen == s'.word)
  }

  lemma StepMovesOne(s: System, i: nat)
    requires Enabled(s, i)
    ensures OnlyMoves(s, Next(s, i), i)
  {
  }

  lemma MoveKeepsLoads(s: System, s': System, i: nat)
    requires LoadsAreOlder(s) && OnlyMoves(s, s', i) && Grew(s.word, s'.word)
    ensures LoadsAreOlder(s')
  {
    forall j | 0 <= j < |s'.calls| && s'.calls[j].Loaded?
      ensures Grew(s'.calls[j].seen, s'.word)
    {
      if j != i {
        GrewTransitive(s.calls[j].seen, s.word, s'.word);
      }
    }
  }

  lemma StepKeepsInv(word0: bv64, days: seq<int>, s: System, i: nat)
    requires Inv(word0, days, s) && Enabled(s, i)
    ensures Inv(word0, days, Next(s, i))
  {
    StepEffect(days, s, i);
    StepKeepsCalls(days, s, i);
    StepMovesOne(s, i);
    MoveKeepsLoads(s, Next(s, i), i);
    StepOrders(s, i);
    MoveKeepsOrder(s, Next(s, i), i);
    if Next(s, i).calls[i].Done? {
      PickedAppend(word0, days, s.order, i);
    }
  }

  lemma PickedAppend(word0: bv64, days: seq<int>, order: seq<nat>, i: nat)
    requires i < |days| && forall k :: 0 <= k < |order| ==> order[k] < |days|
    ensures forall k :: 0 <= k < |order| + 1 ==> (order + [i])[k] < |days|
    ensures MarkAll(word0, Picked(days, order + [i])) == Mark(MarkAll(word0, Picked(days, order)), days[i])
  {
    assert Picked(days, order + [i]) == Picked(days, order) + [days[i]];
    MarkAllAppend(word0, Picked(days, order), days[i]);
  }

  lemma {:induction false} RunKeepsInv(word0: bv64, days: seq<int>, s: System, schedule: seq<nat>)
    requires Inv(word0, days, s) && Legal(s, schedule)
    ensures Inv(word0, days, Exec(s, schedule))
    decreases |schedule|
  {
    if schedule != [] {
      StepKeepsInv(word0, days, s, schedule[0]);
      RunKeepsInv(word0, days, Next(s, schedule[0]), schedule[1..]);
    }
  }

  ghost predicate IsPermutation(order: seq<nat>, n: nat)
  {
    && |order| == n
    && (forall k :: 0 <= k < |order| ==> order[k] < n)
    && (forall j, k :: 0 <= j < k < |order| ==> order[j] != order[k])
  }

  /** At some point of the schedule call i has returned and call j has not. */
  ghost predicate ReturnsBefore(s: System, schedule: seq<nat>, i: nat, j: nat)
    requires Legal(s, schedule) && i < |s.calls| && j < |s.calls|
    decreases |schedule|
  {
    || (s.calls[i].Done? && !s.calls[j].Done?)
    || (schedule != [] && ReturnsBefore(Next(s, schedule[0]), schedule[1..], i, j))
  }

  ghost predicate Before(order: seq<nat>, i: nat, j: nat)
  {
    exists a, b :: 0 <= a < b < |order| && order[a] == i && order[b] == j
  }

  /** The order only grows, at its end. */
  lemma {:induction false} OrderGrows(s: System, schedule: seq<nat>)
    requires Legal(s, schedule)
    ensures |s.order| <= |Exec(s, schedule).order| && Exec(s, schedule).order[..|s.order|] == s.order
    decreases |schedule|
  {
    if schedule != [] {
      var next := Next(s, schedule[0]);
      assert |next.order| >= |s.order| && next.order[..|s.order|] == s.order;
      OrderGrows(next, schedule[1..]);
      assert Exec(s, schedule).order[..|next.order|][..|s.order|] == s.order;
    }
  }

  lemma DoneFirst(s: System, end: System, i: nat, j: nat)
    requires OrderOfDone(s) && OrderOfDone(end) && |s.calls| == |end.calls| && i < |s.calls| && j < |s.calls|
    requires |s.order| <= |end.order| && end.order[..|s.order|] == s.order
    requires s.calls[i].Done? && !s.calls[j].Done? && end.calls[j].Done?
    ensures Before(end.order, i, j)
  {
    SuffixComesLater(s.order, end.order[|s.order|..], i, j);
    assert end.order == s.order + end.order[|s.order|..];
  }

  lemma SuffixComesLater(order: seq<nat>, suffix: seq<nat>, i: nat, j: nat)
    requires i in order && j !in order && j in order + suffix
    ensures Before(order + suffix, i, j)
  {
    var a :| 0 <= a < |order| && order[a] == i;
    var b :| 0 <= b < |suffix| && suffix[b] == j;
    assert (order + suffix)[a] == i && (order + suffix)[|order| + b] == j;
  }

  lemma {:induction false} ReturnOrder(word0: bv64, days: seq<int>, s: System, schedule: seq<nat>, i: nat, j: nat)
    requires Inv(word0, days, s) && Legal(s, schedule) && i < |days| && j < |days|
    requires ReturnsBefore(s, schedule, i, j) && Exec(s, schedule).calls[j].Done?
    ensures Before(Exec(s, schedule).order, i, j)
    decreases |schedule|
  {
    hide Next, Picked, MarkAll, LoadsAreOlder, OrderOfDone, Before;
    if s.calls[i].Done? && !s.calls[j].Done? {
      OrderGrows(s, schedule);
      RunKeepsInv(word0, days, s, schedule);
      DoneFirst(s, Exec(s, schedule), i, j);
    } else {
      StepKeepsInv(word0, days, s, schedule[0]);
      ReturnOrder(word0, days, Next(s, schedule[0]), schedule[1..], i, j);
    }
  }

  /** Linearizability: when every call has returned, the word is what the calls give one after another, each
      exactly once, in an order in which a call that returned before another did, and so before any other
      began, comes first. */
  lemma CallsTakeEffectInSomeOrder(word: bv64, days: seq<int>, schedule: seq<nat>)
    requires forall i :: 0 <= i < |days| ==> days[i] < DAY_LIMIT
    requires Legal(Start(word, days), schedule)
    requires forall c :: c in Exec(Start(word, days), schedule).calls ==> c.Done?
    ensures var end := Exec(Start(word, days), schedule);
            && IsPermutation(end.order, |days|)
            && end.word == MarkAll(word, Picked(days, end.order))
            && forall i: nat, j: nat :: i < |days| && j < |days| && ReturnsBefore(Start(word, days), schedule, i, j) ==>
                 Before(end.order, i, j)
  {
    var s := Start(word, days);
    assert Picked(days, s.order) == [];
    RunKeepsInv(word, days, s, schedule);
    var end := Exec(s, schedule);
    forall i: nat | i < |days|
      ensures i in end.order
    {
      assert end.calls[i] in end.calls;
    }
    DistinctCover(end.order, |days|);
    forall i: nat, j: nat | i < |days| && j < |days| && ReturnsBefore(s, schedule, i, j)
      ensures Before(end.order, i, j)
    {
      assert end.calls[j] in end.calls;
      ReturnOrder(word, days, s, schedule, i, j);
    }
  }

  lemma DistinctCover(order: seq<nat>, n: nat)
    requires forall k :: 0 <= k < |order| ==> order[k] < n
    requires forall j, k :: 0 <= j < k < |order| ==> order[j] != order[k]
    requires forall i: nat :: i < n ==> i in order
    ensures |order| == n
  {
    assert Elements(order) == Range(n);
    SizeOfDistinct(order);
  }

  ghost function Range(n: nat): (r: set<nat>)
    ensures |r| == n && forall i :: i in r <==> 0 <= i < n
  {
    if n == 0 then {} else Range(n - 1) + {n - 1}
  }

  // ---------------------------------------------------------------------------
  // Every call ends
  // ---------------------------------------------------------------------------

  ghost function DaysInPlay(s: System): set<int>
  {
    set i | 0 <= i < |s.calls| :: s.calls[i].day
  }

  /** How often the word can still be written: each write raises the last day to a day in play or sets
      bit 0 of a word that did not have it. */
  ghost function WritesLeft(s: System): nat
  {
    |Ahead(DaysInPlay(s), LastDay(s.word))| + if Odd(Mask(s.word)) then 0 else 1
  }

  ghost function Ahead(days: set<int>, last: int): set<int>
  {
    set d | d in days && d > last
  }

  lemma AheadShrinks(days: set<int>, last: int, day: int)
    requires day in days
    ensures day > last ==> |Ahead(days, day)| < |Ahead(days, last)|
  {
    if day > last {
      assert day in Ahead(days, last);
      SubsetSize(Ahead(days, day), Ahead(days, last) - {day});
    }
  }

  ghost function Potential(s: System, i: nat): nat
    requires i < |s.calls|
  {
    match s.calls[i]
    case Ready(_) => 2 * WritesLeft(s) + 2
    case Loaded(_, seen) => 2 * WritesLeft(s) + (if seen == s.word then 1 else 3)
    case Done(_) => 2 * WritesLeft(s)
  }

  lemma WriteUsesUpADay(s: System, i: nat)
    requires Enabled(s, i) && s.calls[i].Loaded? && s.calls[i].seen == s.word
    requires s.calls[i].day < DAY_LIMIT && Mark(s.word, s.calls[i].day) != s.word
    ensures WritesLeft(Next(s, i)) < WritesLeft(s)
  {
    var day := s.calls[i].day;
    SameDays(s, i);
    NoWriteIffSettled(s.word, day);
    MarkSettles(s.word, day);
    AheadShrinks(DaysInPlay(s), LastDay(s.word), day);
  }

  lemma SameDays(s: System, i: nat)
    requires Enabled(s, i)
    ensures DaysInPlay(Next(s, i)) == DaysInPlay(s)
  {
    var s' := Next(s, i);
    assert forall j :: 0 <= j < |s.calls| ==> s'.calls[j].day == s.calls[j].day;
  }

  /** A step of call i uses up its own potential; no step of another call raises it. */
  lemma StepUsesPotential(s: System, i: nat, j: nat)
    requires Enabled(s, i) && j < |s.calls|
    requires forall k :: 0 <= k < |s.calls| ==> s.calls[k].day < DAY_LIMIT
    ensures Potential(Next(s, i), j) <= Potential(s, j) - (if i == j then 1 else 0)
  {
    SameDays(s, i);
    if Next(s, i).word != s.word {
      WriteUsesUpADay(s, i);
    }
  }

  ghost function StepsOf(i: nat, schedule: seq<nat>): nat
    decreases |schedule|
  {
    if schedule == [] then 0 else (if schedule[0] == i then 1 else 0) + StepsOf(i, schedule[1..])
  }

  lemma {:induction false} StepsWithinPotential(s: System, schedule: seq<nat>, i: nat)
    requires Legal(s, schedule) && i < |s.calls|
    requires forall k :: 0 <= k < |s.calls| ==> s.calls[k].day < DAY_LIMIT
    ensures StepsOf(i, schedule) <= Potential(s, i)
    decreases |schedule|
  {
    if schedule != [] {
      StepUsesPotential(s, schedule[0], i);
      StepsWithinPotential(Next(s, schedule[0]), schedule[1..], i);
    }
  }

  /** No call takes more than two steps for each distinct day in play, two for bit 0 of the word, and its
      own load and swap: the retry loop ends under every schedule. */
  lemma RetriesAreBounded(word: bv64, days: seq<int>, schedule: seq<nat>, i: nat)
    requires forall k :: 0 <= k < |days| ==> days[k] < DAY_LIMIT
    requires Legal(Start(word, days), schedule) && i < |days|
    ensures StepsOf(i, schedule) <= 2 * |(set k | 0 <= k < |days| :: days[k])| + 4
  {
    var s := Start(word, days);
    StepsWithinPotential(s, schedule, i);
    assert DaysInPlay(s) == set k | 0 <= k < |days| :: days[k] by {
      assert forall k :: 0 <= k < |days| ==> s.calls[k].day == days[k];
    }
    SubsetSize(Ahead(DaysInPlay(s), LastDay(s.word)), DaysInPlay(s));
  }
}
