/**
 Zone watermarks: aggregation over the zones reclaim does not skip, and the lowest breached
 watermark with cached pages and a boost factor.
 */
module Watermark {
  import opened Options

  /** One zone of /proc/zoneinfo; `named` is the skip counter its name selects, if any. */
  datatype Zone = Zone(
    named: Option<nat>,
    present: bool,
    free: int, cma: int, inactiveFile: int, activeFile: int,
    min: int, low: int, high: int, maxProtection: int)

  datatype Marks = Marks(min: int, low: int, high: int)

  datatype ZoneMeminfo = ZoneMeminfo(free: int, cma: int, inactiveFile: int, activeFile: int, marks: Marks)

  /** How the aggregation is configured: MGLRU off, the effective boost, debug logging. */
  datatype Config = Config(mglruOff: bool, boost: int, debug: bool)

  // ---------- which zones count ----------

  /** The first skip counter from i on that the kernel reports. */
  function Reported(deltas: seq<int>, i: nat): (k: nat)
    requires i <= |deltas|
    ensures i <= k <= |deltas|
    decreases |deltas| - i
  {
    if i < |deltas| && deltas[i] < 0 then Reported(deltas, i + 1) else i
  }

  /** Where the index of the walk stands after a zone seen at index i. */
  function IndexAfter(deltas: seq<int>, z: Zone, i: nat, debug: bool): nat
    requires i <= |deltas|
  {
    var k := Reported(deltas, i);
    if !z.present then k + 1
    else k + (if z.named.None? then 1 else 0) + (if debug then 1 else 0)
  }

  /** At this zone the walk does not look past the skip counters. */
  predicate ZoneInBounds(deltas: seq<int>, z: Zone, i: nat, debug: bool) {
    && i <= |deltas| && Reported(deltas, i) < |deltas|
    && (z.present && z.named.Some? ==> z.named.value < |deltas|)
    && (z.present && debug ==> IndexAfter(deltas, z, i, debug) <= |deltas|)
  }

  /** The walk never looks past the skip counters: what the source relies on. */
  predicate InBounds(deltas: seq<int>, zones: seq<Zone>, i: nat, debug: bool)
    decreases |zones|
  {
    zones == [] ||
    (&& ZoneInBounds(deltas, zones[0], i, debug)
     && InBounds(deltas, zones[1..], IndexAfter(deltas, zones[0], i, debug), debug))
  }

  /** A zone counts when it has pages and its skip counter has not moved. */
  predicate Eligible(deltas: seq<int>, z: Zone, i: nat)
    requires i <= |deltas| && Reported(deltas, i) < |deltas|
    requires z.present && z.named.Some? ==> z.named.value < |deltas|
  {
    z.present && deltas[if z.named.Some? then z.named.value else Reported(deltas, i)] == 0
  }

  /**
   One turn of the walk, where it stays within the counters. Let k be the first counter from i on that
   the kernel reports. The zone counts if and only if it has pages and its own counter, or counter k
   if its name selects none, is 0. The walk goes on at k after a zone that a name selects the counter
   of and behind k after any other; with debug logging one further after a zone with pages.
   */
  lemma WalkTurn(deltas: seq<int>, z: Zone, i: nat, debug: bool) returns (k: nat)
    requires ZoneInBounds(deltas, z, i, debug)
    ensures i <= k < |deltas| && deltas[k] >= 0 && forall j :: i <= j < k ==> deltas[j] < 0
    ensures Eligible(deltas, z, i) <==> z.present && deltas[if z.named.Some? then z.named.value else k] == 0
    ensures IndexAfter(deltas, z, i, debug)
            == (if z.present && z.named.Some? then k else k + 1) + (if z.present && debug then 1 else 0)
  {
    k := Reported(deltas, i);
    FirstReported(deltas, i);
  }

  lemma {:induction false} FirstReported(deltas: seq<int>, i: nat)
    requires i <= |deltas|
    ensures var k := Reported(deltas, i);
            (k < |deltas| ==> deltas[k] >= 0) && forall j :: i <= j < k ==> deltas[j] < 0
    decreases |deltas| - i
  {
    if i < |deltas| && deltas[i] < 0 {
      FirstReported(deltas, i + 1);
    }
  }

  function EligibleZones(deltas: seq<int>, zones: seq<Zone>, i: nat, debug: bool): seq<Zone>
    requires InBounds(deltas, zones, i, debug)
    decreases |zones|
  {
    if zones == [] then []
    else
      (if Eligible(deltas, zones[0], i) then [zones[0]] else [])
      + EligibleZones(deltas, zones[1..], IndexAfter(deltas, zones[0], i, debug), debug)
  }

  /** The eligible zones of all nodes; the walk starts over at every node. */
  function EligibleIn(deltas: seq<int>, nodes: seq<seq<Zone>>, debug: bool): seq<Zone>
    requires forall n :: 0 <= n < |nodes| ==> InBounds(deltas, nodes[n], 0, debug)
  {
    if nodes == [] then []
    else EligibleIn(deltas, nodes[..|nodes| - 1], debug) + EligibleZones(deltas, nodes[|nodes| - 1], 0, debug)
  }

  // ---------- what is computed over them ----------

  datatype Field = Free | Cma | Inactive | Active | Min | Low | High | Protection

  /** A field of a zone; file pages count only where MGLRU is off or the boosted high mark is breached. */
  function Get(z: Zone, f: Field, cfg: Config): int {
    match f
    case Free => z.free
    case Cma => z.cma
    case Inactive => if cfg.mglruOff || z.free <= z.high * cfg.boost then z.inactiveFile else 0
    case Active => if cfg.mglruOff || z.free <= z.high * cfg.boost then z.activeFile else 0
    case Min => z.min
    case Low => z.low
    case High => z.high
    case Protection => z.maxProtection
  }

  function Sum(zs: seq<Zone>, f: Field, cfg: Config): int {
    if zs == [] then 0 else Sum(zs[..|zs| - 1], f, cfg) + Get(zs[|zs| - 1], f, cfg)
  }

  function Max(zs: seq<Zone>, f: Field, cfg: Config): (m: int)
    ensures m >= 0
  {
    if zs == [] then 0
    else
      var m := Max(zs[..|zs| - 1], f, cfg);
      var x := Get(zs[|zs| - 1], f, cfg);
      if x > m then x else m
  }

  /** The largest value over the zones, or zero: an upper bound that is attained. */
  lemma {:induction false} MaxIsMax(zs: seq<Zone>, f: Field, cfg: Config)
    ensures forall k :: 0 <= k < |zs| ==> Get(zs[k], f, cfg) <= Max(zs, f, cfg)
    ensures Max(zs, f, cfg) == 0 || exists k :: 0 <= k < |zs| && Get(zs[k], f, cfg) == Max(zs, f, cfg)
  {
    if zs != [] {
      MaxIsMax(zs[..|zs| - 1], f, cfg);
      if Max(zs, f, cfg) == Max(zs[..|zs| - 1], f, cfg) && Max(zs, f, cfg) != 0 {
        var k :| 0 <= k < |zs| - 1 && Get(zs[..|zs| - 1][k], f, cfg) == Max(zs, f, cfg);
        assert Get(zs[k], f, cfg) == Max(zs, f, cfg);
      }
    }
  }

  lemma {:induction false} MaxOrdered(zs: seq<Zone>, f: Field, g: Field, cfg: Config)
    requires forall k :: 0 <= k < |zs| ==> Get(zs[k], f, cfg) <= Get(zs[k], g, cfg)
    ensures Max(zs, f, cfg) <= Max(zs, g, cfg)
  {
    if zs != [] {
      MaxOrdered(zs[..|zs| - 1], f, g, cfg);
    }
  }

  /** The result of calc_zone_watermarks over the eligible zones; all zero without a node. */
  function Aggregate(zs: seq<Zone>, cfg: Config, anyNode: bool): ZoneMeminfo {
    var p := Max(zs, Protection, cfg);
    ZoneMeminfo(Sum(zs, Free, cfg), Sum(zs, Cma, cfg), Sum(zs, Inactive, cfg), Sum(zs, Active, cfg),
                if anyNode then Marks(Max(zs, Min, cfg) + p, Max(zs, Low, cfg) + p, Max(zs, High, cfg) + p)
                else Marks(0, 0, 0))
  }

  /**
   Where every zone has min <= low <= high, so has the aggregate, and each mark is the worst
   watermark of an eligible zone plus the worst protection.
   */
  lemma AggregateOrdered(zs: seq<Zone>, cfg: Config, anyNode: bool)
    requires forall k :: 0 <= k < |zs| ==> zs[k].min <= zs[k].low <= zs[k].high
    ensures var m := Aggregate(zs, cfg, anyNode).marks;
            && 0 <= m.min <= m.low <= m.high
            && (anyNode ==> forall k :: 0 <= k < |zs| ==>
                  && zs[k].min + zs[k].maxProtection <= m.min && zs[k].low + zs[k].maxProtection <= m.low
                  && zs[k].high + zs[k].maxProtection <= m.high)
  {
    MaxOrdered(zs, Min, Low, cfg);
    MaxOrdered(zs, Low, High, cfg);
    MaxIsMax(zs, Protection, cfg);
    MaxIsMax(zs, Min, cfg);
    MaxIsMax(zs, Low, cfg);
    MaxIsMax(zs, High, cfg);
    forall k | 0 <= k < |zs|
      ensures zs[k].min <= Max(zs, Min, cfg) && zs[k].low <= Max(zs, Low, cfg) && zs[k].high <= Max(zs, High, cfg)
              && zs[k].maxProtection <= Max(zs, Protection, cfg)
    {
      assert Get(zs[k], Min, cfg) == zs[k].min && Get(zs[k], Low, cfg) == zs[k].low
             && Get(zs[k], High, cfg) == zs[k].high && Get(zs[k], Protection, cfg) == zs[k].maxProtection;
    }
  }

  /**
   What one more eligible zone adds: its pages, its file pages if MGLRU is off or it is at or below
   its boosted high mark, and what its marks and its protection have above the largest so far.
   */
  lemma AggregateGrows(zs: seq<Zone>, z: Zone, cfg: Config)
    ensures Aggregate([], cfg, true) == ZoneMeminfo(0, 0, 0, 0, Marks(0, 0, 0))
    ensures var (a, b) := (Aggregate(zs, cfg, true), Aggregate(zs + [z], cfg, true));
            var file := cfg.mglruOff || z.free <= z.high * cfg.boost;
            && b.free == a.free + z.free && b.cma == a.cma + z.cma
            && b.inactiveFile == a.inactiveFile + (if file then z.inactiveFile else 0)
            && b.activeFile == a.activeFile + (if file then z.activeFile else 0)
    ensures var (p, q) := (Max(zs, Protection, cfg), Max(zs + [z], Protection, cfg));
            var (a, b) := (Aggregate(zs, cfg, true).marks, Aggregate(zs + [z], cfg, true).marks);
            && q == Larger(p, z.maxProtection)
            && b.min - q == Larger(a.min - p, z.min) && b.low - q == Larger(a.low - p, z.low)
            && b.high - q == Larger(a.high - p, z.high)
  {
    assert (zs + [z])[..|zs|] == zs;
  }

  // ---------- calc_zone_watermarks ----------

  /** The accumulators of the two loops. */
  datatype Acc = Acc(free: int, cma: int, inactiveFile: int, activeFile: int,
                     maxHigh: int, maxLow: int, maxMin: int, maxProtection: int)

  ghost predicate Holds(a: Acc, zs: seq<Zone>, cfg: Config) {
    && a.free == Sum(zs, Free, cfg) && a.cma == Sum(zs, Cma, cfg)
    && a.inactiveFile == Sum(zs, Inactive, cfg) && a.activeFile == Sum(zs, Active, cfg)
    && a.maxHigh == Max(zs, High, cfg) && a.maxLow == Max(zs, Low, cfg) && a.maxMin == Max(zs, Min, cfg)
    && a.maxProtection == Max(zs, Protection, cfg)
  }

  function Larger(a: int, b: int): int {
    if b > a then b else a
  }

  function Add(a: Acc, z: Zone, cfg: Config): Acc {
    var file := cfg.mglruOff || z.free <= z.high * cfg.boost;
    Acc(a.free + z.free, a.cma + z.cma,
        a.inactiveFile + (if file then z.inactiveFile else 0), a.activeFile + (if file then z.activeFile else 0),
        Larger(a.maxHigh, z.high), Larger(a.maxLow, z.low), Larger(a.maxMin, z.min),
        Larger(a.maxProtection, z.maxProtection))
  }

  lemma AddHolds(a: Acc, zs: seq<Zone>, z: Zone, cfg: Config)
    requires Holds(a, zs, cfg)
    ensures Holds(Add(a, z, cfg), zs + [z], cfg)
  {
    assert (zs + [z])[..|zs|] == zs;
  }

  /** The inner `while` that passes over counters the kernel does not report; it may find none. */
  method SkipUnreported(deltas: seq<int>, i: nat) returns (k: nat)
    requires i <= |deltas|
    ensures k == Reported(deltas, i)
    ensures k == |deltas| <==> forall j :: i <= j < |deltas| ==> deltas[j] < 0
  {
    k := i;
    while k < |deltas| && deltas[k] < 0
      invariant i <= k <= Reported(deltas, i) && Reported(deltas, k) == Reported(deltas, i)
      invariant forall j :: i <= j < k ==> deltas[j] < 0
      decreases |deltas| - k
    {
      k := k + 1;
    }
  }

  /** The body of the loop over the zones of a node; None if it looks past the skip counters. */
  method AddZone(deltas: seq<int>, z: Zone, cfg: Config, a0: Acc, i0: nat, ghost done: seq<Zone>) returns (r: Option<(Acc, nat)>)
    requires i0 <= |deltas| && Holds(a0, done, cfg)
    ensures r.Some? <==> ZoneInBounds(deltas, z, i0, cfg.debug)
    ensures r.Some? ==> r.value.1 == IndexAfter(deltas, z, i0, cfg.debug) <= |deltas|
                        && Holds(r.value.0, done + (if Eligible(deltas, z, i0) then [z] else []), cfg)
  {
    AddHolds(a0, done, z, cfg);
    assert done + [] == done;
    hide Holds;
    var i := SkipUnreported(deltas, i0);
    if i == |deltas| {
      return None;
    }
    if !z.present {
      return Some((a0, i + 1));
    }
    if z.named.Some? && z.named.value >= |deltas| {
      return None;
    }
    var delta;
    if z.named.Some? {
      delta := deltas[z.named.value];
    } else {
      delta := deltas[i];
      i := i + 1;
    }
    if cfg.debug {
      if i == |deltas| {
        return None;
      }
      i := i + 1;
    }
    return Some((if delta == 0 then Add(a0, z, cfg) else a0, i));
  }

  /** One pass through the zones of a node. */
  method AddNode(deltas: seq<int>, zones: seq<Zone>, cfg: Config, a0: Acc, ghost before: seq<Zone>) returns (r: Option<Acc>)
    requires Holds(a0, before, cfg)
    ensures r.Some? <==> InBounds(deltas, zones, 0, cfg.debug)
    ensures r.Some? ==> Holds(r.value, before + EligibleZones(deltas, zones, 0, cfg.debug), cfg)
  {
    hide Holds, Eligible, IndexAfter;
    var a := a0;
    var i: nat := 0;
    ghost var done := before;
    ghost var fine := InBounds(deltas, zones, 0, cfg.debug);
    assert zones[0..] == zones;
    for n := 0 to |zones|
      invariant i <= |deltas| && Holds(a, done, cfg) && (fine <==> InBounds(deltas, zones[n..], i, cfg.debug))
      invariant fine ==> done + EligibleZones(deltas, zones[n..], i, cfg.debug)
                         == before + EligibleZones(deltas, zones, 0, cfg.debug)
    {
      ghost var rest := zones[n..];
      assert rest[0] == zones[n] && rest[1..] == zones[n + 1..];
      var next := AddZone(deltas, zones[n], cfg, a, i, done);
      if next.None? {
        return None;
      }
      ghost var more := if Eligible(deltas, zones[n], i) then [zones[n]] else [];
      a, i := next.value.0, next.value.1;
      if fine {
        ghost var tail := EligibleZones(deltas, zones[n + 1..], i, cfg.debug);
        assert done + (more + tail) == (done + more) + tail;
      }
      done := done + more;
    }
    assert done + [] == done;
    r := Some(a);
  }

  ghost predicate AllInBounds(deltas: seq<int>, nodes: seq<seq<Zone>>, debug: bool) {
    forall n :: 0 <= n < |nodes| ==> InBounds(deltas, nodes[n], 0, debug)
  }

  /** calc_zone_watermarks; None where the walk over the zones runs past the skip counters. */
  method CalcZoneWatermarks(nodes: seq<seq<Zone>>, deltas: seq<int>, cfg: Config) returns (r: Option<ZoneMeminfo>)
    ensures r == if AllInBounds(deltas, nodes, cfg.debug)
                 then Some(Aggregate(EligibleIn(deltas, nodes, cfg.debug), cfg, nodes != [])) else None
  {
    var a := Acc(0, 0, 0, 0, 0, 0, 0, 0);
    var marks := Marks(0, 0, 0);
    assert Holds(a, [], cfg) && nodes[..0] == [];
    hide InBounds, EligibleZones, Sum, Max;
    for n := 0 to |nodes|
      invariant AllInBounds(deltas, nodes[..n], cfg.debug)
      invariant Holds(a, EligibleIn(deltas, nodes[..n], cfg.debug), cfg)
      invariant marks == if n == 0 then Marks(0, 0, 0)
                         else Marks(a.maxMin + a.maxProtection, a.maxLow + a.maxProtection, a.maxHigh + a.maxProtection)
    {
      assert nodes[..n + 1][..n] == nodes[..n];
      var next := AddNode(deltas, nodes[n], cfg, a, EligibleIn(deltas, nodes[..n], cfg.debug));
      if next.None? {
        return None;
      }
      a := next.value;
      marks := Marks(a.maxMin + a.maxProtection, a.maxLow + a.maxProtection, a.maxHigh + a.maxProtection);
    }
    assert nodes[..|nodes|] == nodes;
    r := Some(ZoneMeminfo(a.free, a.cma, a.inactiveFile, a.activeFile, marks));
  }

  // ---------- get_lowest_watermark ----------

  datatype Level = WmarkMin | WmarkLow | WmarkHigh | WmarkNone {
    function Rank(): nat {
      match this
      case WmarkMin => 0
      case WmarkLow => 1
      case WmarkHigh => 2
      case WmarkNone => 3
    }
  }

  const VMPRESS_LEVEL_CRITICAL := 2

  /** should_consider_cache_free; `cachePercent` is whether a percentage is configured. */
  predicate ConsiderCacheFree(cachePercent: bool, events: bool, level: int, inCompaction: bool) {
    && cachePercent && !inCompaction
    && (level < VMPRESS_LEVEL_CRITICAL || (!events && level == VMPRESS_LEVEL_CRITICAL))
  }

  /** get_lowest_watermark for `f` free pages outside CMA and `c` cached pages taken as free. */
  function LowestWatermark(f: int, c: nat, boost: int, m: Marks): Level {
    if f + c < m.min then WmarkMin
    else if f + c * boost < boost * m.low then WmarkLow
    else if f + c * boost < boost * m.high then WmarkHigh
    else WmarkNone
  }

  /** The watermark is breached, each level taken alone. */
  predicate Breached(l: Level, f: int, c: nat, boost: int, m: Marks) {
    match l
    case WmarkMin => f + c < m.min
    case WmarkLow => f + c * boost < boost * m.low
    case WmarkHigh => f + c * boost < boost * m.high
    case WmarkNone => true
  }

  lemma MulMono(a: int, b: int, w: nat)
    requires a <= b
    ensures a * w <= b * w
  {
  }

  /** Below the min mark means below the boosted low mark, and that below the boosted high mark. */
  lemma Nested(f: nat, c: nat, boost: int, m: Marks)
    requires boost >= 1 && m.min <= m.low <= m.high
    ensures Breached(WmarkMin, f, c, boost, m) ==> Breached(WmarkLow, f, c, boost, m)
    ensures Breached(WmarkLow, f, c, boost, m) ==> Breached(WmarkHigh, f, c, boost, m)
  {
    MulMono(m.low, m.high, boost);
    if f + c < m.min {
      MulMono(f + c + 1, m.low, boost);
      MulMono(1, boost, f);
      assert (f + c + 1) * boost == f * boost + c * boost + boost;
    }
  }

  /** The result is the lowest breached watermark. */
  lemma LowestBreached(f: nat, c: nat, boost: int, m: Marks, l: Level)
    requires boost >= 1 && m.min <= m.low <= m.high
    ensures Breached(l, f, c, boost, m) <==> LowestWatermark(f, c, boost, m).Rank() <= l.Rank()
  {
    Nested(f, c, boost, m);
  }

  /** More free or more cached pages never give a lower watermark. */
  lemma MonotoneInPages(f: nat, c: nat, f': nat, c': nat, boost: int, m: Marks)
    requires boost >= 1 && m.min <= m.low <= m.high && f <= f' && c <= c'
    ensures LowestWatermark(f, c, boost, m).Rank() <= LowestWatermark(f', c', boost, m).Rank()
  {
    var l := LowestWatermark(f', c', boost, m);
    MulMono(c, c', boost);
    assert Breached(l, f', c', boost, m);
    assert Breached(l, f, c, boost, m);
    LowestBreached(f, c, boost, m, l);
  }

  lemma BoostBreach(f: nat, c: nat, boost: int, boost': int, mark: int)
    requires 1 <= boost <= boost' && f + c * boost < boost * mark
    ensures f + c * boost' < boost' * mark
  {
    var gap := mark - c;
    assert boost * mark - c * boost == boost * gap;
    assert boost' * mark - c * boost' == boost' * gap;
    if gap <= 0 {
      MulMono(gap, 0, boost);
    }
    MulMono(boost, boost', if gap > 0 then gap else 0);
  }

  /** For fixed totals a larger boost never gives a milder watermark. */
  lemma BoostNeverMilder(f: nat, c: nat, boost: int, boost': int, m: Marks)
    requires 1 <= boost <= boost' && m.min <= m.low <= m.high
    ensures LowestWatermark(f, c, boost', m).Rank() <= LowestWatermark(f, c, boost, m).Rank()
  {
    var l := LowestWatermark(f, c, boost, m);
    if l == WmarkLow {
      BoostBreach(f, c, boost, boost', m.low);
    } else if l == WmarkHigh {
      BoostBreach(f, c, boost, boost', m.high);
    }
    assert Breached(l, f, c, boost', m);
    LowestBreached(f, c, boost', m, l);
  }

  predicate NestedAt(f: int, c: nat, boost: int, m: Marks) {
    && (Breached(WmarkMin, f, c, boost, m) ==> Breached(WmarkLow, f, c, boost, m))
    && (Breached(WmarkLow, f, c, boost, m) ==> Breached(WmarkHigh, f, c, boost, m))
  }

  /**
   With more CMA pages than free pages, `f` is negative. The tests are then nested for every
   amount of cached pages if and only if they are for the largest that breaches the min mark.
   */
  lemma NestedIff(f: int, boost: int, m: Marks)
    requires boost >= 1 && m.min <= m.low <= m.high
    ensures (forall c: nat :: NestedAt(f, c, boost, m))
            <==> f >= m.min || f + boost * (m.min - f - 1) < boost * m.low
  {
    var most := m.min - f - 1;
    if (forall c: nat :: NestedAt(f, c, boost, m)) && f < m.min {
      assert NestedAt(f, most, boost, m);
    }
    if f >= m.min || f + boost * most < boost * m.low {
      forall c: nat ensures NestedAt(f, c, boost, m) {
        MulMono(m.low, m.high, boost);
        if f + c < m.min {
          MulMono(c, most, boost);
        }
      }
    }
  }

  /** With more CMA pages than free pages the tests need not be nested. */
  lemma NegativeFreeNotNested()
    ensures var m := Marks(6, 6, 6);
            Breached(WmarkMin, -10, 15, 2, m) && !Breached(WmarkLow, -10, 15, 2, m)
  {
  }
}
