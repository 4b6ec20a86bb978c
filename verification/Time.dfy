/** get_time_diff_ms on clock readings, against exact nanoseconds. */
module Time {
  import opened CInt

  const NS_PER_SEC := 1_000_000_000
  const NS_PER_MS := 1_000_000
  const MS_PER_SEC := 1000

  /** struct timespec as clock_gettime fills it. */
  datatype Timespec = Timespec(sec: int, nsec: int) {
    predicate Normal() { 0 <= nsec < NS_PER_SEC }

    function Ns(): int { sec * NS_PER_SEC + nsec }
  }

  /** The reading of a clock that shows `ns` nanoseconds. */
  function At(ns: int): (t: Timespec)
    ensures t.Normal() && t.Ns() == ns
  {
    Timespec(ns / NS_PER_SEC, ns % NS_PER_SEC)
  }

  function DiffMs(from: Timespec, to: Timespec): int {
    (to.sec - from.sec) * MS_PER_SEC + TruncDiv(to.nsec - from.nsec, NS_PER_MS)
  }

  /** The result is less than one millisecond away from the exact difference. */
  lemma DiffWithin1Ms(from: Timespec, to: Timespec)
    requires from.Normal() && to.Normal()
    ensures -NS_PER_MS < DiffMs(from, to) * NS_PER_MS - (to.Ns() - from.Ns()) < NS_PER_MS
  {
  }

  /** A later reading never gives a smaller difference, an earlier origin neither. */
  lemma DiffMonotone(from: Timespec, to: Timespec, from': Timespec, to': Timespec)
    requires from.Normal() && to.Normal() && from'.Normal() && to'.Normal()
    requires from'.Ns() <= from.Ns() && to.Ns() <= to'.Ns()
    ensures DiffMs(from, to) <= DiffMs(from', to')
  {
    LaterTo(from, to, to');
    EarlierFrom(from, from', to');
  }

  lemma LaterTo(from: Timespec, to: Timespec, to': Timespec)
    requires from.Normal() && to.Normal() && to'.Normal() && to.Ns() <= to'.Ns()
    ensures DiffMs(from, to) <= DiffMs(from, to')
  {
    if to'.sec == to.sec {
    } else {
      assert to'.sec >= to.sec + 1;
    }
  }

  lemma EarlierFrom(from: Timespec, from': Timespec, to: Timespec)
    requires from.Normal() && from'.Normal() && to.Normal() && from'.Ns() <= from.Ns()
    ensures DiffMs(from, to) <= DiffMs(from', to)
  {
    if from'.sec == from.sec {
    } else {
      assert from.sec >= from'.sec + 1;
    }
  }

  /** It is not additive: a wait of 1 ms can be measured as 2 ms. */
  lemma DiffNotAdditive()
    ensures DiffMs(At(999_000_000), At(999_500_000)) == 0 && DiffMs(At(999_000_000), At(1_000_500_000)) == 2
  {
  }

  // ---------- on nanosecond instants ----------

  /** The difference in ms that the daemon computes between two instants. */
  function Elapsed(from: int, to: int): int {
    DiffMs(At(from), At(to))
  }

  lemma ElapsedBounds(from: int, to: int)
    ensures -NS_PER_MS < Elapsed(from, to) * NS_PER_MS - (to - from) < NS_PER_MS
  {
    DiffWithin1Ms(At(from), At(to));
  }

  lemma NoTime(now: int)
    ensures Elapsed(now, now) == 0
  {
    ElapsedBounds(now, now);
  }

  lemma ElapsedForward(from: int, to: int)
    ensures from <= to ==> Elapsed(from, to) >= 0
  {
    if from <= to {
      DiffMonotone(At(from), At(from), At(from), At(to));
    }
  }

  /** More than `ms` milliseconds measured means more than `ms` milliseconds passed. */
  lemma MeasuredMoreThan(from: int, to: int, ms: int)
    requires Elapsed(from, to) > ms
    ensures to - from > ms * NS_PER_MS
  {
    ElapsedBounds(from, to);
  }
}
