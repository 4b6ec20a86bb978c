/** The boost factor, the thrashing measure, its limit and its maximum over every run. */
module ThrashRuns {
  import opened CInt
  import opened Options
  import opened RegistryModel
  import opened SelectionModel
  import opened Time
  import opened PsiModel
  import opened DaemonModel

  // ---------- what the history says ----------

  /** Cuts of the limit since the last window reset, and the largest thrashing since the last kill. */
  datatype Trace = Trace(cuts: nat, peak: int)

  function Traced(tr: Trace, b: Body): Trace {
    if b.thrashed.None? then tr
    else
      var th := b.thrashed.value;
      var cuts := if th.crossed then 0 else tr.cuts;
      var peak := if th.thrashing > tr.peak then th.thrashing else tr.peak;
      if b.pages > 0 then Trace(if b.Scanned() && b.verdict.value.dec.cut then cuts + 1 else cuts, 0)
      else Trace(cuts, peak)
  }

  function TraceStep(tr: Trace, d: Daemon, ev: Event, cfg: Settings): Trace
    requires WellFormed(d.reg) && Sane(cfg)
  {
    if RunsHandler(d, ev) then Traced(tr, BodyOf(d, ev, cfg)) else tr
  }

  // ---------- what every run keeps ----------

  function Power(x: real, n: nat): real {
    if n == 0 then 1.0 else x * Power(x, n - 1)
  }

  /** The part of the limit one cut leaves. */
  function Keeps(cfg: Settings): real {
    (100 - cfg.decayPct) as real / 100.0
  }

  predicate LimitBound(limit: int, cuts: nat, cfg: Settings) {
    0 <= limit && limit as real <= cfg.limitPct as real * Power(Keeps(cfg), cuts)
  }

  predicate Sound(d: Daemon, tr: Trace, cfg: Settings) {
    && 1 <= d.wbf <= cfg.boostFactor
    && d.psi.initRefault <= d.psi.prevRefault && d.psi.prevGrowth >= 0
    && LimitBound(d.psi.limit, tr.cuts, cfg)
    && d.psi.maxThrashing == tr.peak >= 0
  }

  /** The refault counter of the kernel never runs backwards. */
  predicate Forward(d: Daemon, ev: Event) {
    RunsHandler(d, ev) && ev.r.vm.Some? ==> ev.r.vm.value.refault >= d.psi.prevRefault
  }

  /** What was measured fits in an int. */
  predicate FitsInt(b: Body) {
    b.thrashed.Some? ==> b.thrashed.value.thrashing < 0x8000_0000
  }

  lemma GrowthNonNegative(p: Psi, vm: VmStat)
    requires vm.refault >= p.initRefault
    ensures Growth(p, vm) >= 0
  {
    Quotient((vm.refault - p.initRefault) * 100, p.baseFileLru + 1);
  }

  lemma Quotient(a: nat, b: int)
    requires b > 0
    ensures a / b >= 0
  {
  }

  lemma ShiftNonNegative(x: nat, n: nat)
    ensures ShiftRight(x, n) >= 0
  {
    Quotient(x, Pow2(n % 64));
  }

  /** Measuring: nothing negative, the limit reset with the window, the maximum kept up. */
  lemma ThrashSound(p: Psi, vm: VmStat, now: int, cuts: nat, cfg: Settings)
    requires p.initRefault <= vm.refault && p.prevGrowth >= 0 && LimitBound(p.limit, cuts, cfg)
    ensures var th := Thrash(p, vm, now, cfg);
            && th.thrashing >= 0
            && th.p.initRefault <= th.p.prevRefault == vm.refault && th.p.prevGrowth >= 0
            && LimitBound(th.p.limit, if th.crossed then 0 else cuts, cfg)
            && (th.thrashing < 0x8000_0000 ==>
                  th.p.maxThrashing == if th.thrashing > p.maxThrashing then th.thrashing else p.maxThrashing)
            && th.p.killing == p.killing
  {
    var q := p.(prevRefault := vm.refault);
    GrowthNonNegative(q, vm);
    if Elapsed(p.resetTm, now) > THRASHING_RESET_INTERVAL_MS {
      ShiftNonNegative(Growth(q, vm), Elapsed(p.resetTm, now) / THRASHING_RESET_INTERVAL_MS);
    }
    ToInt32Exact(Thrash(p, vm, now, cfg).thrashing);
    hide Growth, Elapsed, ShiftRight, ToInt32;
  }

  lemma ReclaimSound(p: Psi, vm: VmStat, now: int, rs: Reclaim)
    requires p.initRefault <= p.prevRefault <= vm.refault && p.prevGrowth >= 0
    ensures var q := AfterReclaim(AfterKill(p, vm, now), vm, rs);
            && q.initRefault <= vm.refault && q.prevGrowth >= 0 && q.limit == p.limit
            && q.maxThrashing == p.maxThrashing && q.prevRefault == p.prevRefault
            && (vm.refault == q.prevRefault ==> q.initRefault <= q.prevRefault)
  {
  }

  lemma FloorBound(x: nat)
    ensures (x / 100) as real <= x as real / 100.0
  {
    var q := x / 100;
    assert 100 * q <= x;
    assert 100.0 * q as real <= x as real;
  }

  lemma ShareIsReal(limit: nat, share: nat)
    ensures (limit * share) as real / 100.0 == limit as real * (share as real / 100.0)
  {
    assert (limit * share) as real == limit as real * share as real;
  }

  lemma Scale(a: real, b: real, k: real)
    requires a <= b && k >= 0.0
    ensures a * k <= b * k
  {
  }

  lemma PowerNext(base: real, x: real, n: nat)
    ensures base * Power(x, n) * x == base * Power(x, n + 1)
  {
    var p := Power(x, n);
    assert Power(x, n + 1) == x * p;
    assert base * p * x == base * (x * p);
  }

  /** One cut leaves at most the configured share, rounded down. */
  lemma CutBound(limit: int, cuts: nat, cfg: Settings)
    requires LimitBound(limit, cuts, cfg) && cfg.decayPct <= 100
    ensures LimitBound(TruncDiv(limit * (100 - cfg.decayPct), 100), cuts + 1, cfg)
  {
    var share: nat := 100 - cfg.decayPct;
    FloorBound(limit * share);
    ShareIsReal(limit, share);
    Scale(limit as real, cfg.limitPct as real * Power(Keeps(cfg), cuts), Keeps(cfg));
    PowerNext(cfg.limitPct as real, Keeps(cfg), cuts);
    Quotient(limit * share, 100);
    hide Power;
  }

  lemma BoostSound(wbf: int, reason: Reason, cfg: Settings)
    requires 1 <= wbf <= cfg.boostFactor
    ensures 1 <= KillBoost(wbf, reason, cfg) <= cfg.boostFactor && 1 <= Lowered(wbf) <= cfg.boostFactor
  {
  }

  lemma AfterScanSound(p: Psi, pages: int, atts: seq<Attempt>, cut: bool, now: int, cuts: nat, peak: int, cfg: Settings)
    requires Sane(cfg) && LimitBound(p.limit, cuts, cfg) && p.maxThrashing == peak
    ensures var q := AfterScan(p, pages, atts, cut, now, cfg);
            && q.initRefault == p.initRefault && q.prevRefault == p.prevRefault && q.prevGrowth == p.prevGrowth
            && LimitBound(q.limit, if pages > 0 && cut then cuts + 1 else cuts, cfg)
            && q.maxThrashing == if pages > 0 then 0 else peak
  {
    hide LimitBound, TruncDiv, AnyKilled;
    CutBound(p.limit, cuts, cfg);
  }

  lemma ActSound(d: Daemon, v: Verdict, rs: Reclaim, low: bool, th: Thrashed, now: int, r: Reading, tr: Trace, cfg: Settings)
    requires WellFormed(d.reg) && Sane(cfg) && MinScore(v) >= 0 && d.psi == th.p
    requires 1 <= d.wbf <= cfg.boostFactor && th.p.initRefault <= th.p.prevRefault && th.p.prevGrowth >= 0
    requires LimitBound(th.p.limit, if th.crossed then 0 else tr.cuts, cfg)
    requires th.thrashing >= 0 && tr.peak >= 0
    requires th.p.maxThrashing == if th.thrashing > tr.peak then th.thrashing else tr.peak
    ensures var b := Act(d, v, rs, low, th, now, r, cfg);
            b.thrashed == Some(th) && Sound(b.d, Traced(tr, b), cfg)
  {
    hide FindAndKill, WellFormed, LimitBound, KillBoost, MinScore, AfterScan;
    BoostSound(d.wbf, v.dec.reason, cfg);
    var cuts := if th.crossed then 0 else tr.cuts;
    var b := Act(d, v, rs, low, th, now, r, cfg);
    var p := d.psi.(checkFilecache := v.dec.checkFilecache, firstKill := v.firstKill);
    AfterScanSound(p, b.pages, b.attempts, v.dec.cut, now, cuts, p.maxThrashing, cfg);
    if b.Scanned() {
      assert b.d.psi == AfterScan(p, b.pages, b.attempts, v.dec.cut, now, cfg);
    } else {
      assert b.d.psi == p && b.d.wbf == d.wbf && b.pages == 0;
    }
  }

  lemma MeasureSound(d: Daemon, level: int, events: bool, now: int, vm: VmStat, mem: Mem, r: Reading, tr: Trace, cfg: Settings)
    requires WellFormed(d.reg) && Sane(cfg) && Sound(d, tr, cfg) && vm.refault >= d.psi.prevRefault
    ensures var b := Measure(d, level, events, now, vm, mem, r, cfg);
            && (b.thrashed.Some? ==> b.thrashed.value.thrashing >= 0)
            && (FitsInt(b) ==> Sound(b.d, Traced(tr, b), cfg))
  {
    hide FindAndKill, Prepare, WellFormed, Act, LimitBound, Traced;
    var q := Prepare(d.psi, d.up, d.wbf, level, events, now, vm, mem, r, cfg);
    PrepareMin(d.psi, d.up, d.wbf, level, events, now, vm, mem, r, cfg);
    PrepareSound(d.psi, d.up, d.wbf, level, events, now, vm, mem, r, tr, cfg);
    NothingTraced(tr);
    if q.judged.Some? {
      var (th, v) := q.judged.value;
      var d1 := d.(psi := q.psi, up := q.up);
      ActTraces(d1, v, q.rs, mem.swapIsLow, th, now, r, cfg);
      if th.thrashing < 0x8000_0000 {
        ActSound(d1, v, q.rs, mem.swapIsLow, th, now, r, tr, cfg);
      }
    }
  }

  lemma PrepareSound(p: Psi, up: Upgrade, wbf: int, level: int, events: bool, now: int, vm: VmStat, mem: Mem,
                     r: Reading, tr: Trace, cfg: Settings)
    requires p.initRefault <= p.prevRefault <= vm.refault && p.prevGrowth >= 0 && LimitBound(p.limit, tr.cuts, cfg)
    requires p.maxThrashing == tr.peak >= 0
    ensures var q := Prepare(p, up, wbf, level, events, now, vm, mem, r, cfg);
            && q.psi.initRefault <= q.psi.prevRefault && q.psi.prevGrowth >= 0
            && (q.judged.None? ==> LimitBound(q.psi.limit, tr.cuts, cfg) && q.psi.maxThrashing == tr.peak)
            && (q.judged.Some? ==>
                  var th := q.judged.value.0;
                  && q.psi == th.p && th.thrashing >= 0
                  && LimitBound(th.p.limit, if th.crossed then 0 else tr.cuts, cfg)
                  && (th.thrashing < 0x8000_0000 ==>
                        th.p.maxThrashing == if th.thrashing > tr.peak then th.thrashing else tr.peak))
  {
    hide Thrash, Passes, AfterKill, AfterReclaim, ReclaimState, FactsOf, LimitBound;
    var p1 := AfterKill(p, vm, now);
    var rs := ReclaimState(p1, vm, r, cfg);
    ReclaimSound(p, vm, now, rs);
    ThrashSound(AfterReclaim(p1, vm, rs), vm, now, tr.cuts, cfg);
  }

  lemma ActTraces(d: Daemon, v: Verdict, rs: Reclaim, low: bool, th: Thrashed, now: int, r: Reading, cfg: Settings)
    requires WellFormed(d.reg) && MinScore(v) >= 0
    ensures Act(d, v, rs, low, th, now, r, cfg).thrashed == Some(th)
  {
    hide FindAndKill, WellFormed;
  }

  lemma NothingTraced(tr: Trace)
    ensures forall b: Body :: b.thrashed.None? ==> Traced(tr, b) == tr
  {
  }

  lemma HandleSound(d: Daemon, level: int, events: bool, r: Reading, tr: Trace, cfg: Settings)
    requires WellFormed(d.reg) && Sane(cfg) && Sound(d, tr, cfg)
    requires r.vm.Some? ==> r.vm.value.refault >= d.psi.prevRefault
    ensures var b := Handle(d, level, events, r, cfg);
            && (b.thrashed.Some? ==> b.thrashed.value.thrashing >= 0)
            && (FitsInt(b) ==> Sound(b.d, Traced(tr, b), cfg))
  {
    hide Measure, WellFormed, StopWait, Elapsed, LimitBound, Traced;
    StopWaitWellFormed(d.reg);
    NothingTraced(tr);
    var e := Entered(d, level, events, cfg);
    if PastWait(e, r, cfg) && r.vm.Some? && r.mem.Some? {
      MeasureSound(e.(reg := StopWait(e.reg)), level, events, r.now.value, r.vm.value, r.mem.value, r, tr, cfg);
    }
  }

  lemma FinishSound(d: Daemon, level: int, events: bool, rs: Reclaim, low: bool, tr: Trace, cfg: Settings)
    requires Sound(d, tr, cfg)
    ensures Sound(Finish(d, level, events, rs, low, cfg), tr, cfg)
  {
    hide LimitBound;
  }

  lemma SwitchSound(d: Daemon, handler: Option<int>, now: int, tr: Trace, cfg: Settings)
    requires Sane(cfg) && Sound(d, tr, cfg)
    ensures Sound(Switch(d, handler, now, cfg), tr, cfg)
  {
    hide LimitBound, Elapsed;
  }

  lemma StepSound(s: Sys, ev: Event, tr: Trace, cfg: Settings)
    requires WellFormed(s.d.reg) && Sane(cfg) && Enabled(s, ev, cfg) && Sound(s.d, tr, cfg) && Forward(s.d, ev)
    ensures MeasuresForward(s.d, ev, cfg)
    ensures (RunsHandler(s.d, ev) ==> FitsInt(BodyOf(s.d, ev, cfg)))
            ==> Sound(Step(s, ev, cfg).d, TraceStep(tr, s.d, ev, cfg), cfg)
  {
    assert |s.d.reg.slots| == ADJTOSLOT_COUNT;
    hide Handle, RunCommand, WellFormed, Elapsed, StopWait, Finish, CheckCont, LimitBound, Traced, Switch;
    if RunsHandler(s.d, ev) {
      var d := Counted(s.d, ev, cfg);
      HandleSound(d, LevelOf(s.d, ev), ev.Pressure?, ev.r, tr, cfg);
      var b := BodyOf(s.d, ev, cfg);
      if FitsInt(b) {
        FinishSound(b.d, LevelOf(s.d, ev), ev.Pressure?, b.rs, b.swapIsLow, TraceStep(tr, s.d, ev, cfg), cfg);
        SwitchSound(PsiCycle(d, LevelOf(s.d, ev), ev.Pressure?, ev.r, cfg), Some(LevelOf(s.d, ev)), ev.now,
                    TraceStep(tr, s.d, ev, cfg), cfg);
      }
    } else if ev.ClientCommand? {
      SwitchSound(s.d.(reg := RunCommand(s.d.reg, ev.client, ev.cmd), poll := s.d.poll.(update := DoNotChange)),
                  None, ev.now, tr, cfg);
    } else if ev.DeathNotice? || ev.FailureNotice? {
      SwitchSound(EndWait(s.d), None, ev.now, tr, cfg);
    }
  }

  /** Counters run forward and measurements fit, all along a run; `trs` is its history. */
  ghost predicate Measured(ss: seq<Sys>, evs: seq<Event>, trs: seq<Trace>, cfg: Settings) {
    |ss| == |evs| + 1 && |trs| == |ss| && forall k :: 0 <= k < |evs| ==> MeasuredAt(ss, evs, trs, k, cfg)
  }

  ghost predicate MeasuredAt(ss: seq<Sys>, evs: seq<Event>, trs: seq<Trace>, k: int, cfg: Settings)
    requires |ss| == |evs| + 1 && |trs| == |ss|
  {
    && 0 <= k < |evs| && WellFormed(ss[k].d.reg) && Sane(cfg) && Forward(ss[k].d, evs[k])
    && (RunsHandler(ss[k].d, evs[k]) ==> FitsInt(BodyOf(ss[k].d, evs[k], cfg)))
    && trs[k + 1] == TraceStep(trs[k], ss[k].d, evs[k], cfg)
  }

  /**
   On every run the effective boost stays between 1 and the configured factor, the limit after n
   cuts since the last window reset is between 0 and pct * ((100 - decay) / 100)^n, and
   max_thrashing is the largest thrashing measured since the last kill that freed memory.
   */
  lemma {:induction false} RunSound(ss: seq<Sys>, evs: seq<Event>, trs: seq<Trace>, k: nat, cfg: Settings)
    requires IsRun(ss, evs, cfg) && Measured(ss, evs, trs, cfg) && k <= |evs| && Sound(ss[0].d, trs[0], cfg)
    ensures Sound(ss[k].d, trs[k], cfg)
    ensures k < |evs| ==> StepAt(ss, evs, k, cfg) && MeasuresForward(ss[k].d, evs[k], cfg)
  {
    hide Step, WellFormed, Enabled, Sound, TraceStep, FitsInt, Forward, BodyOf, RunsHandler;
    if k > 0 {
      RunSound(ss, evs, trs, k - 1, cfg);
      RunStep(ss, evs, k - 1, cfg);
      assert MeasuredAt(ss, evs, trs, k - 1, cfg);
      StepSound(ss[k - 1], evs[k - 1], trs[k - 1], cfg);
    }
    if k < |evs| {
      RunStep(ss, evs, k, cfg);
      assert MeasuredAt(ss, evs, trs, k, cfg);
      StepSound(ss[k], evs[k], trs[k], cfg);
    }
  }

  /** Whatever thrashing the event's handler measures is not negative. */
  ghost predicate MeasuresForward(d: Daemon, ev: Event, cfg: Settings)
    requires WellFormed(d.reg) && Sane(cfg)
  {
    RunsHandler(d, ev) ==> var th := BodyOf(d, ev, cfg).thrashed; th.Some? ==> th.value.thrashing >= 0
  }

  lemma BootSound(pidfdSupported: bool, cfg: Settings)
    requires Sane(cfg)
    ensures Sound(Boot(pidfdSupported, cfg), Trace(0, 0), cfg)
  {
  }
}
