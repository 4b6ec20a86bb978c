/**
 What thrashing is, on every run: the percentage of the page cache of the last reset that was
 refaulted since, added to what the window before has left. Told by the readings of the handlers.
 */
module ThrashMeasure {
  import opened CInt
  import opened Options
  import opened RegistryModel
  import opened SelectionModel
  import opened Time
  import opened PsiModel
  import opened DaemonModel
  import opened PollingRuns

  // ---------- percentages and what a window leaves ----------

  /** g is 100 * refaults / (cache + 1), cut towards zero: more of it would be too much. */
  predicate IsPercent(g: int, refaults: int, cache: nat) {
    if refaults >= 0
    then g >= 0 && g * (cache + 1) <= 100 * refaults < (g + 1) * (cache + 1)
    else g <= 0 && (g - 1) * (cache + 1) < 100 * refaults <= g * (cache + 1)
  }

  lemma DivBounds(a: nat, b: nat)
    requires b > 0
    ensures (a / b) * b <= a < (a / b + 1) * b
  {
    assert a == (a / b) * b + a % b;
  }

  lemma Flip(x: int, b: int)
    ensures (-x) * b == -(x * b)
  {
  }

  lemma NegBounds(a: int, b: nat)
    requires a >= 0 && b > 0
    ensures var q: int := a / b; (-q - 1) * b < -a <= (-q) * b
  {
    DivBounds(a, b);
    Flip(a / b + 1, b);
    Flip(a / b, b);
    var q: int := a / b;
    assert -(q + 1) == -q - 1;
  }

  lemma PercentIs(refaults: int, cache: nat)
    ensures IsPercent(TruncDiv(refaults * 100, cache + 1), refaults, cache)
  {
    if refaults >= 0 {
      DivBounds(refaults * 100, cache + 1);
    } else {
      NegBounds(-(refaults * 100), cache + 1);
    }
  }

  lemma GrowthIsPercent(p: Psi, vm: VmStat)
    ensures IsPercent(Growth(p, vm), vm.refault - p.initRefault, p.baseFileLru)
  {
    hide IsPercent, TruncDiv;
    PercentIs(vm.refault - p.initRefault, p.baseFileLru);
  }

  /**
   `left` is what a window with growth g leaves when n windows have passed: all of it if a single
   one has passed and the limit was reached, else g halved n times, the shift taken modulo 64.
   */
  predicate Leaves(g: int, n: int, limit: int, left: int) {
    if n == 1 && g >= limit then left == g
    else n >= 0 && var half := Pow2(n % 64); left * half <= g < (left + 1) * half
  }

  lemma ShiftLeaves(g: int, n: nat)
    ensures var (half, left) := (Pow2(n % 64), ShiftRight(g, n)); left * half <= g < (left + 1) * half
  {
    var half := Pow2(n % 64);
    assert g == (g / half) * half + g % half;
  }

  // ---------- one handler ----------

  /** The handler reads vmstat and meminfo. */
  predicate Reads(d: Daemon, r: Reading, cfg: Settings) {
    PastWait(d, r, cfg) && r.vm.Some? && r.mem.Some?
  }

  /** It is the first to do so after a kill. */
  predicate Restarts(d: Daemon, r: Reading, cfg: Settings) {
    Reads(d, r, cfg) && d.psi.killing
  }

  predicate Measures(d: Daemon, r: Reading, cfg: Settings) {
    Reads(d, r, cfg) && !SystemIdle(d.psi, r.vm.value, r.now.value, r, cfg)
  }

  /** It measures more than a second after the last reset. */
  predicate Crosses(d: Daemon, r: Reading, cfg: Settings) {
    Measures(d, r, cfg) && !d.psi.killing && Elapsed(d.psi.resetTm, r.now.value) > THRASHING_RESET_INTERVAL_MS
  }

  predicate Opens(d: Daemon, r: Reading, cfg: Settings) {
    Restarts(d, r, cfg) || Crosses(d, r, cfg)
  }

  function Cache(vm: VmStat): nat {
    vm.inactiveFile + vm.activeFile
  }

  /** The window was opened with this reading, at `now`, and the one before has left `left`. */
  predicate WindowOf(p: Psi, vm: VmStat, now: int, left: int) {
    p.initRefault == vm.refault && p.baseFileLru == Cache(vm) && p.resetTm == now && p.prevGrowth == left
  }

  predicate SameWindow(p: Psi, q: Psi) {
    p.initRefault == q.initRefault && p.baseFileLru == q.baseFileLru && p.resetTm == q.resetTm && p.prevGrowth == q.prevGrowth
  }

  lemma ScanKeepsWindow(p: Psi, pages: int, atts: seq<Attempt>, cut: bool, now: int, cfg: Settings)
    ensures SameWindow(p, AfterScan(p, pages, atts, cut, now, cfg))
  {
  }

  /** Thrash, from the window as it stands. */
  lemma ThrashMeans(p: Psi, vm: VmStat, now: int, cfg: Settings)
    ensures var th := Thrash(p, vm, now, cfg);
            if Elapsed(p.resetTm, now) > THRASHING_RESET_INTERVAL_MS
            then && WindowOf(th.p, vm, now, th.thrashing)
                 && Leaves(Growth(p, vm), Elapsed(p.resetTm, now) / THRASHING_RESET_INTERVAL_MS, p.limit, th.thrashing)
            else SameWindow(th.p, p) && th.thrashing == Growth(p, vm) + p.prevGrowth
  {
    hide Elapsed, TruncDiv, ToInt32, ShiftRight;
    var n := Elapsed(p.resetTm, now) / THRASHING_RESET_INTERVAL_MS;
    if Elapsed(p.resetTm, now) > THRASHING_RESET_INTERVAL_MS {
      ShiftLeaves(Growth(p, vm), n);
    }
  }

  /** What a handler that reads vmstat at `now` makes of the window, and what it measures if it does. */
  ghost predicate MeasuredBy(p: Psi, q: Psi, th: Option<Thrashed>, vm: VmStat, now: int) {
    var crosses := th.Some? && !p.killing && Elapsed(p.resetTm, now) > THRASHING_RESET_INTERVAL_MS;
    && (p.killing ==> WindowOf(q, vm, now, 0))
    && (!p.killing && !crosses ==> SameWindow(q, p))
    && (crosses ==>
          && WindowOf(q, vm, now, th.value.thrashing)
          && Leaves(Growth(p, vm), Elapsed(p.resetTm, now) / THRASHING_RESET_INTERVAL_MS, p.limit, th.value.thrashing))
    && (th.Some? && !crosses ==> th.value.thrashing == Growth(q, vm) + q.prevGrowth)
  }

  lemma PrepareMeasures(p: Psi, up: Upgrade, wbf: int, level: int, events: bool, now: int, vm: VmStat, mem: Mem,
                        r: Reading, cfg: Settings)
    ensures var q := Prepare(p, up, wbf, level, events, now, vm, mem, r, cfg);
            && (q.judged.Some? <==> !SystemIdle(p, vm, now, r, cfg))
            && MeasuredBy(p, q.psi, if q.judged.Some? then Some(q.judged.value.0) else None, vm, now)
  {
    hide Thrash, Passes, ReclaimState, FactsOf, Elapsed, Leaves, TruncDiv;
    var p1 := AfterKill(p, vm, now);
    var p2 := AfterReclaim(p1, vm, ReclaimState(p1, vm, r, cfg));
    ThrashMeans(p2, vm, now, cfg);
    NoTime(now);
  }

  lemma SameMeasured(p: Psi, q: Psi, q': Psi, th: Option<Thrashed>, vm: VmStat, now: int)
    requires MeasuredBy(p, q, th, vm, now) && SameWindow(q, q')
    ensures MeasuredBy(p, q', th, vm, now)
  {
    hide Elapsed, Leaves, TruncDiv;
  }

  /** The handler, from the window as it stands: which window it leaves, and what it measures. */
  lemma HandleMeasures(d: Daemon, level: int, events: bool, r: Reading, cfg: Settings)
    requires WellFormed(d.reg) && Sane(cfg)
    ensures var b := Handle(d, level, events, r, cfg);
            && (b.thrashed.Some? <==> Measures(d, r, cfg))
            && (if Reads(d, r, cfg) then MeasuredBy(d.psi, b.d.psi, b.thrashed, r.vm.value, r.now.value)
                else b.d.psi == d.psi)
  {
    hide FindAndKill, StopWait, Prepare, MinScore, AfterScan, KillBoost, WellFormed, MeasuredBy, SystemIdle;
    StopWaitWellFormed(d.reg);
    if Reads(d, r, cfg) {
      var (vm, now, mem) := (r.vm.value, r.now.value, r.mem.value);
      var e := Entered(d, level, events, cfg);
      PrepareMin(e.psi, e.up, e.wbf, level, events, now, vm, mem, r, cfg);
      PrepareMeasures(e.psi, e.up, e.wbf, level, events, now, vm, mem, r, cfg);
      var q := Prepare(e.psi, e.up, e.wbf, level, events, now, vm, mem, r, cfg);
      if q.judged.Some? {
        var b := Handle(d, level, events, r, cfg);
        var v := q.judged.value.1;
        ScanKeepsWindow(q.psi.(checkFilecache := v.dec.checkFilecache, firstKill := v.firstKill), b.pages, b.attempts,
                        v.dec.cut, now, cfg);
        SameMeasured(d.psi, q.psi, b.d.psi, b.thrashed, vm, now);
      }
    }
  }

  // ---------- the limit ----------

  /** The limit thrashing is compared with: a window opened by lateness starts with the configured one. */
  function LimitSeen(d: Daemon, r: Reading, cfg: Settings): int {
    if Crosses(d, r, cfg) then cfg.limitPct else d.psi.limit
  }

  lemma PrepareLimit(p: Psi, up: Upgrade, wbf: int, level: int, events: bool, now: int, vm: VmStat, mem: Mem,
                     r: Reading, cfg: Settings)
    ensures var q := Prepare(p, up, wbf, level, events, now, vm, mem, r, cfg);
            q.psi.limit == if q.judged.Some? && !p.killing && Elapsed(p.resetTm, now) > THRASHING_RESET_INTERVAL_MS
                           then cfg.limitPct else p.limit
  {
    hide Passes, ReclaimState, FactsOf, Elapsed, TruncDiv, ToInt32, ShiftRight;
    NoTime(now);
  }

  /**
   The limit a handler leaves: that which it saw or, after a kill for thrashing that freed memory,
   the part of it the decay leaves, rounded down. No other handler changes it.
   */
  lemma LimitAfter(d: Daemon, level: int, events: bool, r: Reading, cfg: Settings)
    requires WellFormed(d.reg) && Sane(cfg) && d.psi.limit >= 0
    ensures var b := Handle(d, level, events, r, cfg);
            var (seen, left) := (LimitSeen(d, r, cfg), b.d.psi.limit);
            if b.pages > 0 && b.Scanned() && b.verdict.value.dec.cut
            then 100 * left <= seen * (100 - cfg.decayPct) < 100 * (left + 1)
            else left == seen
  {
    hide FindAndKill, StopWait, Prepare, MinScore, KillBoost, WellFormed, SystemIdle, Elapsed, AfterScan, TruncDiv, MeasuredBy;
    StopWaitWellFormed(d.reg);
    HandleMeasures(d, level, events, r, cfg);
    if Reads(d, r, cfg) {
      var (vm, now, mem) := (r.vm.value, r.now.value, r.mem.value);
      var e := Entered(d, level, events, cfg);
      PrepareMin(e.psi, e.up, e.wbf, level, events, now, vm, mem, r, cfg);
      PrepareLimit(e.psi, e.up, e.wbf, level, events, now, vm, mem, r, cfg);
      CutLeaves(LimitSeen(d, r, cfg), 100 - cfg.decayPct);
      var q := Prepare(e.psi, e.up, e.wbf, level, events, now, vm, mem, r, cfg);
      if q.judged.Some? {
        var (b, v) := (Handle(d, level, events, r, cfg), q.judged.value.1);
        ScanLimit(q.psi.(checkFilecache := v.dec.checkFilecache, firstKill := v.firstKill), b.pages, b.attempts,
                  v.dec.cut, now, cfg);
      }
    }
  }

  lemma ScanLimit(p: Psi, pages: int, atts: seq<Attempt>, cut: bool, now: int, cfg: Settings)
    ensures AfterScan(p, pages, atts, cut, now, cfg).limit
            == if pages > 0 && cut then TruncDiv(p.limit * (100 - cfg.decayPct), 100) else p.limit
  {
  }

  lemma CutLeaves(limit: nat, keep: nat)
    ensures var left := TruncDiv(limit * keep, 100); 100 * left <= limit * keep < 100 * (left + 1)
  {
    DivBounds(limit * keep, 100);
  }

  // ---------- every run ----------

  predicate ReadsAt(s: Sys, ev: Event, cfg: Settings) {
    RunsHandler(s.d, ev) && Reads(s.d, ev.r, cfg)
  }

  predicate MeasuresAt(s: Sys, ev: Event, cfg: Settings) {
    RunsHandler(s.d, ev) && Measures(s.d, ev.r, cfg)
  }

  /** The event opens a window: its handler is the first after a kill, or more than a second late. */
  predicate OpensAt(s: Sys, ev: Event, cfg: Settings) {
    RunsHandler(s.d, ev) && Opens(s.d, ev.r, cfg)
  }

  /** The thrashing the event measures, 0 if it measures none. */
  function MeasureAt(s: Sys, ev: Event, cfg: Settings): int
    requires WellFormed(s.d.reg) && Sane(cfg) && RunsHandler(s.d, ev)
  {
    var th := BodyOf(s.d, ev, cfg).thrashed;
    if th.Some? then th.value.thrashing else 0
  }

  /** What is left of earlier windows when the event opens one: after a kill nothing. */
  function LeftAt(s: Sys, ev: Event, cfg: Settings): int
    requires WellFormed(s.d.reg) && Sane(cfg) && RunsHandler(s.d, ev)
  {
    if s.d.psi.killing then 0 else MeasureAt(s, ev, cfg)
  }

  lemma StepMeasures(s: Sys, ev: Event, cfg: Settings)
    requires WellFormed(s.d.reg) && Sane(cfg) && Enabled(s, ev, cfg)
    ensures var q := Step(s, ev, cfg).d.psi;
            if ReadsAt(s, ev, cfg)
            then MeasuredBy(s.d.psi, q, BodyOf(s.d, ev, cfg).thrashed, ev.r.vm.value, ev.r.now.value)
            else SameWindow(q, s.d.psi)
    ensures MeasuresAt(s, ev, cfg) <==> RunsHandler(s.d, ev) && BodyOf(s.d, ev, cfg).thrashed.Some?
  {
    hide Handle, RunCommand, WellFormed, Elapsed, CheckCont, MeasuredBy, Finish, StopWait, SystemIdle;
    if RunsHandler(s.d, ev) {
      var d := Counted(s.d, ev, cfg);
      HandleMeasures(d, LevelOf(s.d, ev), ev.Pressure?, ev.r, cfg);
      HandleReg(d, LevelOf(s.d, ev), ev.Pressure?, ev.r, cfg);
      var b := Handle(d, LevelOf(s.d, ev), ev.Pressure?, ev.r, cfg);
      FinishKeeps(b.d, LevelOf(s.d, ev), ev.Pressure?, b.rs, b.swapIsLow, cfg);
    }
  }

  ghost predicate OpenedBy(ss: seq<Sys>, evs: seq<Event>, j: nat, k: nat, cfg: Settings) {
    && IsRun(ss, evs, cfg) && j < k <= |evs| && OpensAt(ss[j], evs[j], cfg)
    && (forall m :: j < m < k ==> !OpensAt(ss[m], evs[m], cfg))
  }

  /** Until the next one is opened, the window is that of the reading of the event that opened it. */
  lemma {:induction false} WindowKept(ss: seq<Sys>, evs: seq<Event>, j: nat, k: nat, cfg: Settings)
    requires OpenedBy(ss, evs, j, k, cfg)
    ensures StepAt(ss, evs, j, cfg)
    ensures WindowOf(ss[k].d.psi, evs[j].r.vm.value, evs[j].r.now.value, LeftAt(ss[j], evs[j], cfg))
    decreases k
  {
    hide Step, WellFormed, Enabled, Elapsed, BodyOf, SystemIdle, PastWait;
    RunStep(ss, evs, k - 1, cfg);
    RunStep(ss, evs, j, cfg);
    StepMeasures(ss[k - 1], evs[k - 1], cfg);
    if k > j + 1 {
      WindowKept(ss, evs, j, k - 1, cfg);
      assert !OpensAt(ss[k - 1], evs[k - 1], cfg);
    }
  }

  /**
   On every run: between two openings thrashing is what was left at the first of them, and the
   percentage of the cache as it was then that has been refaulted since.
   */
  lemma MeasureGrows(ss: seq<Sys>, evs: seq<Event>, j: nat, k: nat, cfg: Settings)
    requires OpenedBy(ss, evs, j, k, cfg) && k < |evs| && MeasuresAt(ss[k], evs[k], cfg) && !OpensAt(ss[k], evs[k], cfg)
    ensures StepAt(ss, evs, j, cfg) && StepAt(ss, evs, k, cfg)
    ensures var (vm, vm0) := (evs[k].r.vm.value, evs[j].r.vm.value);
            IsPercent(MeasureAt(ss[k], evs[k], cfg) - LeftAt(ss[j], evs[j], cfg), vm.refault - vm0.refault, Cache(vm0))
  {
    hide Step, WellFormed, Enabled, Elapsed, BodyOf, SystemIdle, PastWait, IsPercent, TruncDiv;
    RunStep(ss, evs, k, cfg);
    WindowKept(ss, evs, j, k, cfg);
    StepMeasures(ss[k], evs[k], cfg);
    GrowthIsPercent(ss[k].d.psi, evs[k].r.vm.value);
  }

  /**
   On every run: the event that opens a window more than a second after event i opened the last
   measures what that one leaves, all of its growth or a halved part of it, and only that.
   */
  lemma MeasureCarries(ss: seq<Sys>, evs: seq<Event>, i: nat, j: nat, cfg: Settings) returns (g: int)
    requires OpenedBy(ss, evs, i, j, cfg) && j < |evs| && OpensAt(ss[j], evs[j], cfg) && !ss[j].d.psi.killing
    ensures StepAt(ss, evs, j, cfg)
    ensures var (r, r0) := (evs[j].r, evs[i].r);
            && IsPercent(g, r.vm.value.refault - r0.vm.value.refault, Cache(r0.vm.value))
            && Leaves(g, Elapsed(r0.now.value, r.now.value) / THRASHING_RESET_INTERVAL_MS, ss[j].d.psi.limit,
                      MeasureAt(ss[j], evs[j], cfg))
  {
    hide Step, WellFormed, Enabled, Elapsed, BodyOf, SystemIdle, PastWait, IsPercent, TruncDiv, Leaves;
    RunStep(ss, evs, j, cfg);
    WindowKept(ss, evs, i, j, cfg);
    StepMeasures(ss[j], evs[j], cfg);
    g := Growth(ss[j].d.psi, evs[j].r.vm.value);
    GrowthIsPercent(ss[j].d.psi, evs[j].r.vm.value);
  }

  /** So within a window measures differ by refaults alone, and never fall while the counter runs forward. */
  lemma MeasureRises(ss: seq<Sys>, evs: seq<Event>, j: nat, k: nat, m: nat, cfg: Settings)
    requires OpenedBy(ss, evs, j, m, cfg) && j < k < m < |evs|
    requires MeasuresAt(ss[k], evs[k], cfg) && MeasuresAt(ss[m], evs[m], cfg) && !OpensAt(ss[m], evs[m], cfg)
    requires evs[j].r.vm.value.refault <= evs[k].r.vm.value.refault <= evs[m].r.vm.value.refault
    ensures StepAt(ss, evs, k, cfg) && StepAt(ss, evs, m, cfg)
    ensures MeasureAt(ss[k], evs[k], cfg) <= MeasureAt(ss[m], evs[m], cfg)
  {
    hide Step, WellFormed, Enabled, Elapsed, BodyOf, SystemIdle, PastWait, IsPercent;
    assert !OpensAt(ss[k], evs[k], cfg);
    MeasureGrows(ss, evs, j, k, cfg);
    MeasureGrows(ss, evs, j, m, cfg);
    var left := LeftAt(ss[j], evs[j], cfg);
    var vm := evs[j].r.vm.value;
    PercentMonotone(MeasureAt(ss[k], evs[k], cfg) - left, evs[k].r.vm.value.refault - vm.refault,
                    MeasureAt(ss[m], evs[m], cfg) - left, evs[m].r.vm.value.refault - vm.refault, Cache(vm));
  }

  lemma PercentMonotone(g: int, x: nat, h: int, y: nat, cache: nat)
    requires IsPercent(g, x, cache) && IsPercent(h, y, cache) && x <= y
    ensures g <= h
  {
    Scaled(h + 1, g, cache + 1);
  }
}
