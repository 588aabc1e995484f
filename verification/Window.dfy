/** The sliding window of hits and misses of cache/cache.go: 15 buckets, one a minute, reused modulo 15.
    Its sums are those of the plain log of events. */
module Window {
  const WINDOW_MINUTES: int := 15

  datatype Bucket = Bucket(minute: int, hits: nat, misses: nat)

  datatype Event = Event(minute: int, hit: bool)

  /** Buckets as New leaves them. */
  function EmptyWindow(): seq<Bucket>
  {
    seq(WINDOW_MINUTES, _ => Bucket(0, 0, 0))
  }

  /** recordWindow: a bucket of an older minute is emptied first. */
  function Record(w: seq<Bucket>, minute: int, hit: bool): (w': seq<Bucket>)
    requires |w| == WINDOW_MINUTES && minute >= 0
    ensures |w'| == WINDOW_MINUTES
  {
    var b := w[minute % WINDOW_MINUTES];
    var b := if b.minute != minute then Bucket(minute, 0, 0) else b;
    var b := if hit then b.(hits := b.hits + 1) else b.(misses := b.misses + 1);
    w[minute % WINDOW_MINUTES := b]
  }

  function RecordAll(w: seq<Bucket>, log: seq<Event>): (w': seq<Bucket>)
    requires |w| == WINDOW_MINUTES && forall e :: e in log ==> e.minute >= 0
    ensures |w'| == WINDOW_MINUTES
  {
    if log == [] then w
    else
      var n := |log| - 1;
      Record(RecordAll(w, log[..n]), log[n].minute, log[n].hit)
  }

  /** The events of a log with a given outcome after minute `cutoff`. */
  function CountAfter(log: seq<Event>, cutoff: int, hit: bool): nat
  {
    if log == [] then 0
    else
      var n := |log| - 1;
      CountAfter(log[..n], cutoff, hit) + if log[n].minute > cutoff && log[n].hit == hit then 1 else 0
  }

  predicate InOrder(log: seq<Event>)
  {
    && (forall i :: 0 <= i < |log| ==> log[i].minute >= 0)
    && (forall i, j :: 0 <= i < j < |log| ==> log[i].minute <= log[j].minute)
  }

  /** The first n buckets summed as windowStats does. */
  function SumHits(w: seq<Bucket>, cutoff: int, n: nat): nat
    requires n <= |w|
  {
    if n == 0 then 0 else SumHits(w, cutoff, n - 1) + if w[n - 1].minute > cutoff then w[n - 1].hits else 0
  }

  function SumMisses(w: seq<Bucket>, cutoff: int, n: nat): nat
    requires n <= |w|
  {
    if n == 0 then 0 else SumMisses(w, cutoff, n - 1) + if w[n - 1].minute > cutoff then w[n - 1].misses else 0
  }

  /** No bucket is ahead of the log, and a bucket that holds counts belongs to its own remainder. */
  ghost predicate Shape(w: seq<Bucket>, last: int)
  {
    && |w| == WINDOW_MINUTES
    && forall i :: 0 <= i < WINDOW_MINUTES ==>
         && w[i].minute <= last
         && (w[i].minute % WINDOW_MINUTES == i || (w[i].hits == 0 && w[i].misses == 0))
  }

  function LastMinute(log: seq<Event>): int
  {
    if log == [] then 0 else log[|log| - 1].minute
  }

  /** Updating one bucket changes the sums by that bucket's change. */
  lemma {:induction false} SumUpdate(w: seq<Bucket>, i: nat, b: Bucket, cutoff: int, n: nat)
    requires i < |w| && n <= |w|
    ensures SumHits(w[i := b], cutoff, n) == SumHits(w, cutoff, n)
            + if i < n then Weight(b.minute, b.hits, cutoff) - Weight(w[i].minute, w[i].hits, cutoff) else 0
    ensures SumMisses(w[i := b], cutoff, n) == SumMisses(w, cutoff, n)
            + if i < n then Weight(b.minute, b.misses, cutoff) - Weight(w[i].minute, w[i].misses, cutoff) else 0
  {
    if n > 0 {
      SumUpdate(w, i, b, cutoff, n - 1);
    }
  }

  function Weight(minute: int, count: nat, cutoff: int): nat
  {
    if minute > cutoff then count else 0
  }

  lemma {:induction false} EmptySums(cutoff: int, n: nat)
    requires n <= WINDOW_MINUTES
    ensures SumHits(EmptyWindow(), cutoff, n) == 0 && SumMisses(EmptyWindow(), cutoff, n) == 0
  {
    if n > 0 {
      EmptySums(cutoff, n - 1);
    }
  }

  /** One more event, no earlier than the last: the window keeps its shape and its sums count it, unless
      it is past the cutoff. A bucket emptied for reuse had already left the window. */
  lemma RecordCounts(w: seq<Bucket>, last: int, minute: int, hit: bool, cutoff: int)
    requires Shape(w, last) && 0 <= last <= minute && cutoff >= minute - WINDOW_MINUTES
    ensures Shape(Record(w, minute, hit), minute)
    ensures SumHits(Record(w, minute, hit), cutoff, WINDOW_MINUTES)
            == SumHits(w, cutoff, WINDOW_MINUTES) + if minute > cutoff && hit then 1 else 0
    ensures SumMisses(Record(w, minute, hit), cutoff, WINDOW_MINUTES)
            == SumMisses(w, cutoff, WINDOW_MINUTES) + if minute > cutoff && !hit then 1 else 0
  {
    var i := minute % WINDOW_MINUTES;
    SumUpdate(w, i, Record(w, minute, hit)[i], cutoff, WINDOW_MINUTES);
    if w[i].minute != minute && w[i].minute % WINDOW_MINUTES == i {
      assert w[i].minute <= minute - WINDOW_MINUTES;
    }
  }

  /** For every log at non-decreasing minutes and every later minute, windowStats returns exactly the
      hits and misses of the last 15 minutes. */
  lemma {:induction false} WindowIsLog(log: seq<Event>, minute: int)
    requires InOrder(log) && LastMinute(log) <= minute
    ensures Shape(RecordAll(EmptyWindow(), log), LastMinute(log))
    ensures SumHits(RecordAll(EmptyWindow(), log), minute - WINDOW_MINUTES, WINDOW_MINUTES)
            == CountAfter(log, minute - WINDOW_MINUTES, true)
    ensures SumMisses(RecordAll(EmptyWindow(), log), minute - WINDOW_MINUTES, WINDOW_MINUTES)
            == CountAfter(log, minute - WINDOW_MINUTES, false)
    decreases |log|
  {
    var cutoff := minute - WINDOW_MINUTES;
    if log == [] {
      EmptySums(cutoff, WINDOW_MINUTES);
    } else {
      var n := |log| - 1;
      WindowIsLog(log[..n], minute);
      var w := RecordAll(EmptyWindow(), log[..n]);
      RecordCounts(w, LastMinute(log[..n]), log[n].minute, log[n].hit, cutoff);
    }
  }
}
