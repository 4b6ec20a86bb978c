/**
 The sparse kill counters: a byte per oom_score_adj level that points into 32 sixteen-bit
 counters, and a 32-bit total, against the history of kills they stand for.
 */
module KillCount {
  import opened CInt
  import opened Options
  import opened RegistryModel

  const MAX_DISTINCT_OOM_ADJ := 32
  const KILLCNT_INVALID_IDX := 0xFF
  const TWO_16 := 0x1_0000
  const TWO_32 := 0x1_0000_0000

  // ---------- the history of kills ----------

  /** The value a uint16_t or uint32_t counter shows after x increments from zero. */
  function Low16(x: nat): nat {
    x % TWO_16
  }

  function Low32(x: nat): nat {
    x % TWO_32
  }

  function CountOf(h: seq<int>, adj: int): nat {
    if h == [] then 0 else CountOf(h[..|h| - 1], adj) + if h[|h| - 1] == adj then 1 else 0
  }

  function CountIn(h: seq<int>, lo: int, hi: int): nat {
    if h == [] then 0 else CountIn(h[..|h| - 1], lo, hi) + if lo <= h[|h| - 1] <= hi then 1 else 0
  }

  /** The first 32 distinct levels, in order of their first kill. */
  function Tracked(h: seq<int>): (r: seq<int>)
    ensures |r| <= MAX_DISTINCT_OOM_ADJ && NoDup(r)
  {
    if h == [] then []
    else
      var r := Tracked(h[..|h| - 1]);
      var a := h[|h| - 1];
      if a in r || |r| >= MAX_DISTINCT_OOM_ADJ then r else r + [a]
  }

  /** What the counters can tell about one level. */
  function Shown(h: seq<int>, adj: int): nat {
    if adj in Tracked(h) then Low16(CountOf(h, adj)) else 0
  }

  function ShownIn(h: seq<int>, lo: int, hi: int): nat
    decreases hi - lo + 1
  {
    if lo > hi then 0 else Shown(h, lo) + ShownIn(h, lo + 1, hi)
  }

  lemma {:induction false} ShownSplit(h: seq<int>, lo: int, mid: int, hi: int)
    requires lo <= mid <= hi + 1
    ensures ShownIn(h, lo, hi) == ShownIn(h, lo, mid - 1) + ShownIn(h, mid, hi)
    decreases mid - lo
  {
    if lo < mid {
      ShownSplit(h, lo + 1, mid, hi);
    }
  }

  lemma {:induction false} CountSplit(h: seq<int>, lo: int, hi: int)
    ensures lo <= hi ==> CountIn(h, lo, hi) == CountOf(h, lo) + CountIn(h, lo + 1, hi)
    ensures lo > hi ==> CountIn(h, lo, hi) == 0
  {
    if h != [] {
      CountSplit(h[..|h| - 1], lo, hi);
    }
  }

  lemma {:induction false} CountPositive(h: seq<int>, adj: int)
    ensures CountOf(h, adj) > 0 <==> adj in h
  {
    if h != [] {
      CountPositive(h[..|h| - 1], adj);
      assert h == h[..|h| - 1] + [h[|h| - 1]];
    }
  }

  lemma {:induction false} TrackedInHistory(h: seq<int>)
    ensures forall a :: a in Tracked(h) ==> a in h
    ensures |Tracked(h)| < MAX_DISTINCT_OOM_ADJ ==> forall a :: a in h ==> a in Tracked(h)
  {
    if h != [] {
      TrackedInHistory(h[..|h| - 1]);
      assert h == h[..|h| - 1] + [h[|h| - 1]];
    }
  }

  lemma {:induction false} DistinctCount(xs: seq<int>)
    requires NoDup(xs)
    ensures |Members(xs)| == |xs|
  {
    if xs == [] {
      assert Members(xs) == {};
    } else {
      var n := |xs| - 1;
      DistinctCount(xs[..n]);
      assert Members(xs) == Members(xs[..n]) + {xs[n]} by {
        MembersSplit(xs, n);
        assert xs[..n + 1] == xs;
      }
      assert xs[n] !in Members(xs[..n]);
    }
  }

  lemma SubsetSize(a: set<int>, b: set<int>)
    requires a <= b
    ensures |a| <= |b|
  {
    assert a * b == a;
    assert |b - a| + |a * b| == |b|;
  }

  ghost predicate AllTracked(h: seq<int>) {
    forall a :: a in h ==> a in Tracked(h)
  }

  /** Nothing is untracked exactly when at most 32 levels were ever killed at. */
  lemma TrackedIffFew(h: seq<int>)
    ensures |Members(h)| <= MAX_DISTINCT_OOM_ADJ <==> AllTracked(h)
  {
    var t := Tracked(h);
    TrackedInHistory(h);
    DistinctCount(t);
    if AllTracked(h) {
      forall a | a in Members(h) ensures a in Members(t) {
      }
      SubsetSize(Members(h), Members(t));
    } else {
      var a :| a in h && a !in t;
      Untracked(Members(t), Members(h), a);
    }
  }

  lemma Untracked(t: set<int>, m: set<int>, a: int)
    requires t <= m && a in m && a !in t
    ensures |t| < |m|
  {
    SubsetSize(t + {a}, m);
  }

  lemma ShownIsExact(h: seq<int>, adj: int)
    ensures Shown(h, adj) == CountOf(h, adj) <==> (adj in h ==> adj in Tracked(h)) && CountOf(h, adj) < TWO_16
  {
    CountPositive(h, adj);
    TrackedInHistory(h);
  }

  lemma {:induction false} ShownInIsExact(h: seq<int>, lo: int, hi: int)
    requires forall a :: lo <= a <= hi ==> Shown(h, a) == CountOf(h, a)
    ensures ShownIn(h, lo, hi) == CountIn(h, lo, hi)
    decreases hi - lo + 1
  {
    CountSplit(h, lo, hi);
    if lo <= hi {
      ShownInIsExact(h, lo + 1, hi);
    }
  }

  ghost predicate ExactOn(h: seq<int>, lo: int, hi: int) {
    ShownIn(h, lo, hi) == CountIn(h, lo, hi)
  }

  /**
   Every range query is answered exactly if and only if at most 32 distinct levels were killed
   at and no level 65536 times or more.
   */
  lemma ExactIff(h: seq<int>)
    ensures (forall lo, hi :: ExactOn(h, lo, hi))
            <==> |Members(h)| <= MAX_DISTINCT_OOM_ADJ && forall a :: a in h ==> CountOf(h, a) < TWO_16
  {
    TrackedIffFew(h);
    TrackedInHistory(h);
    if forall lo, hi :: ExactOn(h, lo, hi) {
      forall a | a in h ensures a in Tracked(h) && CountOf(h, a) < TWO_16 {
        assert ExactOn(h, a, a);
        CountSplit(h, a, a);
        CountSplit(h, a + 1, a);
        assert ShownIn(h, a, a) == Shown(h, a) + ShownIn(h, a + 1, a);
        ShownIsExact(h, a);
      }
    }
    if |Members(h)| <= MAX_DISTINCT_OOM_ADJ && forall a :: a in h ==> CountOf(h, a) < TWO_16 {
      forall lo, hi ensures ExactOn(h, lo, hi) {
        forall a | lo <= a <= hi ensures Shown(h, a) == CountOf(h, a) {
          ShownIsExact(h, a);
          CountPositive(h, a);
        }
        ShownInIsExact(h, lo, hi);
      }
    }
  }

  /** A 33rd level is lost: it is counted in the total and in no counter. */
  lemma ThirtyThirdLevel(h: seq<int>, adj: int)
    requires |Members(h)| >= MAX_DISTINCT_OOM_ADJ && adj !in h
    ensures Shown(h + [adj], adj) == 0 && CountOf(h + [adj], adj) == 1
  {
    TrackedInHistory(h);
    CountPositive(h, adj);
    DistinctCount(Tracked(h));
    var h' := h + [adj];
    assert h'[..|h'| - 1] == h;
    if AllTracked(h) {
      assert Members(h) <= Members(Tracked(h));
      SubsetSize(Members(h), Members(Tracked(h)));
    }
  }

  /** One more kill extends the tracked levels by at most one and one count by one. */
  lemma OneMore(h: seq<int>, adj: int, a: int)
    ensures Tracked(h + [adj]) == (if adj in Tracked(h) || |Tracked(h)| >= MAX_DISTINCT_OOM_ADJ then Tracked(h)
                                   else Tracked(h) + [adj])
    ensures CountOf(h + [adj], a) == CountOf(h, a) + if a == adj then 1 else 0
    ensures |Tracked(h)| < MAX_DISTINCT_OOM_ADJ && adj !in Tracked(h) ==> CountOf(h, adj) == 0
  {
    assert (h + [adj])[..|h|] == h;
    TrackedInHistory(h);
    CountPositive(h, adj);
  }

  // ---------- the counters ----------

  lemma Wraps16(x: nat)
    ensures Low16(Low16(x) + 1) == Low16(x + 1)
    ensures Low16(1) == 1
  {
  }

  lemma Wraps32(x: nat)
    ensures Low32(Low32(x) + 1) == Low32(x + 1)
  {
  }

  /** Level a has no counter. */
  ghost predicate Unused(idx: seq<int>, a: int) {
    InRange(a) && |idx| == ADJTOSLOT_COUNT && idx[AdjToSlot(a)] == KILLCNT_INVALID_IDX
  }

  /** Counter k counts the kills at level a. */
  ghost predicate Counts(idx: seq<int>, cnt: seq<int>, h: seq<int>, k: int, a: int) {
    && InRange(a) && |idx| == ADJTOSLOT_COUNT && 0 <= k < |cnt|
    && idx[AdjToSlot(a)] == k && cnt[k] == Low16(CountOf(h, a))
  }

  /** The tables count the kills of the tracked levels, each in a counter of its own. */
  ghost predicate Represents(idx: seq<int>, cnt: seq<int>, h: seq<int>, levels: seq<int>) {
    && |idx| == ADJTOSLOT_COUNT && |cnt| == MAX_DISTINCT_OOM_ADJ && |levels| <= MAX_DISTINCT_OOM_ADJ
    && (forall a: OomAdj :: a in levels || Unused(idx, a))
    && (forall k :: 0 <= k < |levels| ==> Counts(idx, cnt, h, k, levels[k]))
  }

  /** The index of a level tells whether it is tracked, and its counter then shows its kills. */
  lemma IndexOf(idx: seq<int>, cnt: seq<int>, h: seq<int>, levels: seq<int>, adj: OomAdj)
    requires Represents(idx, cnt, h, levels)
    ensures var i := idx[AdjToSlot(adj)];
            && (i == KILLCNT_INVALID_IDX <==> adj !in levels)
            && (adj in levels ==> 0 <= i < |levels| && levels[i] == adj && cnt[i] == Low16(CountOf(h, adj)))
  {
    if adj in levels {
      var k :| 0 <= k < |levels| && levels[k] == adj;
      assert Counts(idx, cnt, h, k, adj);
    } else {
      assert Unused(idx, adj);
    }
  }

  lemma SizeOf(idx: seq<int>, cnt: seq<int>, h: seq<int>, levels: seq<int>)
    requires Represents(idx, cnt, h, levels)
    ensures |idx| == ADJTOSLOT_COUNT && |levels| <= MAX_DISTINCT_OOM_ADJ
  {
  }

  lemma CountAgain(idx: seq<int>, cnt: seq<int>, h: seq<int>, levels: seq<int>, adj: OomAdj)
    requires Represents(idx, cnt, h, levels) && NoDup(levels) && adj in levels
    ensures var i := idx[AdjToSlot(adj)];
            0 <= i < |levels| && cnt[i] >= 0 && Represents(idx, cnt[i := Low16(cnt[i] + 1)], h + [adj], levels)
  {
    hide CountOf, Low16, Tracked;
    IndexOf(idx, cnt, h, levels, adj);
    var i := idx[AdjToSlot(adj)];
    var cnt' := cnt[i := Low16(cnt[i] + 1)];
    Wraps16(CountOf(h, adj));
    forall k | 0 <= k < |levels| ensures Counts(idx, cnt', h + [adj], k, levels[k]) {
      assert Counts(idx, cnt, h, k, levels[k]);
      assert k != i ==> levels[k] != adj;
      OneMore(h, adj, levels[k]);
    }
  }

  lemma CountFirst(idx: seq<int>, cnt: seq<int>, h: seq<int>, levels: seq<int>, adj: OomAdj)
    requires Represents(idx, cnt, h, levels)
    requires adj !in levels && |levels| < MAX_DISTINCT_OOM_ADJ && CountOf(h, adj) == 0
    ensures Represents(idx[AdjToSlot(adj) := |levels|], cnt[|levels| := 1], h + [adj], levels + [adj])
  {
    var idx', cnt', more := idx[AdjToSlot(adj) := |levels|], cnt[|levels| := 1], levels + [adj];
    hide CountOf, Low16, Tracked, NoDup, Counts, Unused;
    forall k | 0 <= k < |more| ensures Counts(idx', cnt', h + [adj], k, more[k]) {
      FirstCounts(idx, cnt, h, levels, adj, k);
    }
    forall a: OomAdj ensures a in more || Unused(idx', a) {
      FirstUnused(idx, cnt, h, levels, adj, a);
    }
  }

  lemma FirstCounts(idx: seq<int>, cnt: seq<int>, h: seq<int>, levels: seq<int>, adj: OomAdj, k: nat)
    requires Represents(idx, cnt, h, levels) && k <= |levels|
    requires adj !in levels && |levels| < MAX_DISTINCT_OOM_ADJ && CountOf(h, adj) == 0
    ensures Counts(idx[AdjToSlot(adj) := |levels|], cnt[|levels| := 1], h + [adj], k, (levels + [adj])[k])
  {
    hide CountOf, Low16, Tracked, NoDup;
    OneMore(h, adj, (levels + [adj])[k]);
    Wraps16(0);
    if k < |levels| {
      assert Counts(idx, cnt, h, k, levels[k]) && levels[k] != adj;
    }
  }

  lemma FirstUnused(idx: seq<int>, cnt: seq<int>, h: seq<int>, levels: seq<int>, adj: OomAdj, a: OomAdj)
    requires Represents(idx, cnt, h, levels)
    ensures a in levels + [adj] || Unused(idx[AdjToSlot(adj) := |levels|], a)
  {
    if a == adj {
      assert (levels + [adj])[|levels|] == a;
    } else {
      assert a in levels || Unused(idx, a);
    }
  }

  lemma CountLost(idx: seq<int>, cnt: seq<int>, h: seq<int>, levels: seq<int>, adj: OomAdj)
    requires Represents(idx, cnt, h, levels) && adj !in levels
    ensures Represents(idx, cnt, h + [adj], levels)
  {
    hide CountOf, Low16, Tracked, NoDup;
    forall k | 0 <= k < |levels| ensures Counts(idx, cnt, h + [adj], k, levels[k]) {
      assert Counts(idx, cnt, h, k, levels[k]);
      OneMore(h, adj, levels[k]);
    }
  }

  class KillCounters {
    const idx: array<int>
    const cnt: array<int>
    var freeIdx: nat
    var total: nat
    /** The kills counted so far, and the level each counter stands for. */
    ghost var history: seq<OomAdj>

    ghost predicate Valid()
      reads this, idx, cnt
    {
      && idx.Length == ADJTOSLOT_COUNT && cnt.Length == MAX_DISTINCT_OOM_ADJ && idx != cnt
      && total == Low32(|history|)
      && freeIdx == |Tracked(history)|
      && Represents(idx[..], cnt[..], history, Tracked(history))
    }

    /** The zeroed statics, with killcnt_idx filled with the invalid index by init(). */
    constructor ()
      ensures Valid() && history == [] && fresh(idx) && fresh(cnt)
    {
      idx := new int[ADJTOSLOT_COUNT](i => KILLCNT_INVALID_IDX);
      cnt := new int[MAX_DISTINCT_OOM_ADJ](i => 0);
      freeIdx, total, history := 0, 0, [];
    }

    /** The first kill at a level that still gets a counter. */
    method Assign(oomadj: OomAdj, ghost levels: seq<int>)
      requires idx.Length == ADJTOSLOT_COUNT && cnt.Length == MAX_DISTINCT_OOM_ADJ && idx != cnt
      requires Represents(idx[..], cnt[..], history, levels) && freeIdx == |levels| < MAX_DISTINCT_OOM_ADJ
      requires oomadj !in levels && CountOf(history, oomadj) == 0
      modifies `freeIdx, idx, cnt
      ensures Represents(idx[..], cnt[..], history + [oomadj], levels + [oomadj]) && freeIdx == |levels| + 1
    {
      ghost var idx0, cnt0 := idx[..], cnt[..];
      CountFirst(idx0, cnt0, history, levels, oomadj);
      hide *;
      idx[AdjToSlot(oomadj)] := freeIdx;
      cnt[freeIdx] := 1;
      freeIdx := freeIdx + 1;
      assert idx[..] == idx0[AdjToSlot(oomadj) := |levels|] && cnt[..] == cnt0[|levels| := 1];
    }

    /** One more kill at a level that has a counter. */
    method Bump(i: int, ghost oomadj: OomAdj, ghost levels: seq<int>)
      requires idx.Length == ADJTOSLOT_COUNT && cnt.Length == MAX_DISTINCT_OOM_ADJ && idx != cnt
      requires Represents(idx[..], cnt[..], history, levels) && NoDup(levels)
      requires oomadj in levels && i == idx[AdjToSlot(oomadj)]
      modifies cnt
      ensures Represents(idx[..], cnt[..], history + [oomadj], levels)
    {
      ghost var cnt0 := cnt[..];
      CountAgain(idx[..], cnt0, history, levels, oomadj);
      hide *;
      cnt[i] := Low16(cnt[i] + 1);
      assert cnt[..] == cnt0[i := Low16(cnt0[i] + 1)];
    }

    /** inc_killcnt */
    method Inc(oomadj: OomAdj)
      requires Valid()
      modifies this, idx, cnt
      ensures Valid() && history == old(history) + [oomadj]
    {
      hide Tracked, CountOf, Low16, Low32, Represents, NoDup;
      ghost var levels := Tracked(history);
      ghost var h := history + [oomadj];
      OneMore(history, oomadj, oomadj);
      Wraps32(|history|);
      SizeOf(idx[..], cnt[..], history, levels);
      IndexOf(idx[..], cnt[..], history, levels, oomadj);
      var i := idx[AdjToSlot(oomadj)];
      if i == KILLCNT_INVALID_IDX {
        if freeIdx < MAX_DISTINCT_OOM_ADJ {
          Assign(oomadj, levels);
        } else {
          CountLost(idx[..], cnt[..], history, levels, oomadj);
        }
      } else {
        Bump(i, oomadj, levels);
      }
      assert Represents(idx[..], cnt[..], h, Tracked(h)) && freeIdx == |Tracked(h)|;
      total := Low32(total + 1);
      history := h;
    }

    /** get_killcnt; None where it reads in front of the index table. */
    method Get(min: int, max: int) returns (r: Option<int>)
      requires Valid()
      ensures r == if min > max then Some(0)
                   else if min > OOM_SCORE_ADJ_MAX then Some(ToInt32(Low32(|history|)))
                   else if min < OOM_SCORE_ADJ_MIN then None
                   else Some(ShownIn(history, min, if max <= OOM_SCORE_ADJ_MAX then max else OOM_SCORE_ADJ_MAX))
    {
      if min > max {
        return Some(0);
      }
      if min > OOM_SCORE_ADJ_MAX {
        return Some(ToInt32(total));
      }
      if min < OOM_SCORE_ADJ_MIN {
        return None;
      }
      var count := 0;
      var m := min;
      while m <= max && m - OOM_SCORE_ADJ_MIN < ADJTOSLOT_COUNT
        invariant min <= m <= max + 1 && m <= OOM_SCORE_ADJ_MAX + 1
        invariant count == ShownIn(history, min, m - 1)
        decreases max + 1 - m
      {
        var i := idx[AdjToSlot(m)];
        IndexOf(idx[..], cnt[..], history, Tracked(history), m);
        if i != KILLCNT_INVALID_IDX {
          count := count + cnt[i];
        }
        ShownSplit(history, min, m, m);
        assert ShownIn(history, m, m) == Shown(history, m) + ShownIn(history, m + 1, m);
        m := m + 1;
      }
      r := Some(count);
    }
  }

  // ---------- the total as a check ----------

  function Sum(xs: seq<int>): int {
    if xs == [] then 0 else Sum(xs[..|xs| - 1]) + xs[|xs| - 1]
  }

  /** The kills at one of `levels`. */
  function Inside(h: seq<int>, levels: seq<int>): nat {
    if h == [] then 0 else Inside(h[..|h| - 1], levels) + if h[|h| - 1] in levels then 1 else 0
  }

  lemma {:induction false} InsideAll(h: seq<int>, levels: seq<int>)
    ensures Inside(h, levels) <= |h|
    ensures Inside(h, levels) == |h| <==> forall a :: a in h ==> a in levels
  {
    if h != [] {
      var (rest, x) := (h[..|h| - 1], h[|h| - 1]);
      InsideAll(rest, levels);
      assert h == rest + [x] && x in h;
      assert forall a :: a in h <==> a in rest || a == x;
    }
  }

  lemma {:induction false} InsideMore(h: seq<int>, levels: seq<int>, a: int)
    requires a !in levels
    ensures Inside(h, levels + [a]) == Inside(h, levels) + CountOf(h, a)
  {
    if h != [] {
      InsideMore(h[..|h| - 1], levels, a);
    }
  }

  lemma {:induction false} InsideNothing(h: seq<int>)
    ensures Inside(h, []) == 0
  {
    if h != [] {
      InsideNothing(h[..|h| - 1]);
    }
  }

  /** Counters of `levels` in order add up to no more than the kills at them, and to less if one wrapped. */
  lemma {:induction false} SumOfCounters(idx: seq<int>, cnt: seq<int>, h: seq<int>, levels: seq<int>, n: nat)
    requires Represents(idx, cnt, h, levels) && NoDup(levels) && n <= |levels|
    ensures Sum(cnt[..n]) <= Inside(h, levels[..n])
    ensures Sum(cnt[..n]) == Inside(h, levels[..n]) <==> forall k :: 0 <= k < n ==> CountOf(h, levels[k]) < TWO_16
  {
    InsideNothing(h);
    if n > 0 {
      SumOfCounters(idx, cnt, h, levels, n - 1);
      var a := levels[n - 1];
      assert Counts(idx, cnt, h, n - 1, a);
      assert cnt[..n][..n - 1] == cnt[..n - 1] && levels[..n] == levels[..n - 1] + [a];
      InsideMore(h, levels[..n - 1], a);
      Low16Exact(CountOf(h, a));
    }
  }

  lemma Low16Exact(x: nat)
    ensures Low16(x) <= x && (Low16(x) == x <==> x < TWO_16)
  {
  }

  /**
   The total is the sum of all counters if and only if nothing was lost: at most 32 distinct
   levels, none 65536 times or more. So a wrapped or missing counter shows, for as long as the
   total itself has not wrapped.
   */
  lemma TotalIsSum(c: KillCounters)
    requires c.Valid() && |c.history| < TWO_32
    ensures c.freeIdx <= c.cnt.Length
    ensures c.total == Sum(c.cnt[..c.freeIdx]) <==>
            |Members(c.history)| <= MAX_DISTINCT_OOM_ADJ && forall a :: a in c.history ==> CountOf(c.history, a) < TWO_16
  {
    hide Represents, CountOf, Inside, Sum;
    var h: seq<int> := c.history;
    var levels := Tracked(h);
    assert Low32(|h|) == |h|;
    TrackedIffFew(h);
    TrackedInHistory(h);
    SumOfCounters(c.idx[..], c.cnt[..], h, levels, |levels|);
    assert levels[..|levels|] == levels && c.cnt[..][..c.freeIdx] == c.cnt[..c.freeIdx];
    InsideAll(h, levels);
    hide Tracked;
    if AllTracked(h) {
      forall k | 0 <= k < |levels| ensures levels[k] in h {
        var a := levels[k];
        assert a in levels;
      }
      forall a | a in h ensures exists k :: 0 <= k < |levels| && levels[k] == a {
      }
    }
  }
}
