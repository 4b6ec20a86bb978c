/**
 The bound on the distance of two upgrades to critical polling is exact: for the settings for
 which it is not strict there is a run, given here, that upgrades twice in one instant.
 */
module UpgradeExact {
  import opened Options
  import opened RegistryModel
  import opened SelectionModel
  import opened Watermark
  import opened Time
  import opened PsiModel
  import opened DaemonModel
  import opened UpgradeRuns

  // ---------- the readings of those runs ----------

  function Nothing(): World {
    World((t, p) => 0, (t, p) => false, (t, p) => Probe(true, 0, 0, true, true))
  }

  /** `n` stalls in direct reclaim so far, `direct` if one is going on; nothing else moves. */
  function Look(now: int, n: int, direct: bool): Reading {
    Reading(Some(now), false, Some(VmStat(0, 0, 0, 0, 0, n, 0, 0)), Some(Mem(false, 0)),
            Some(Zones(0, 0, Marks(0, 0, 0), None)), None, direct, false, 0, Nothing(), 0)
  }

  /** vmstat cannot be read. */
  function Blind(now: int): Reading {
    Look(now, 0, false).(vm := None)
  }

  /** Nothing has been measured but `n` stalls in direct reclaim. */
  predicate Steady(p: Psi, n: int) {
    && !p.checkFilecache && p.limit >= 0
    && p.initRefault == 0 && p.prevRefault == 0 && p.prevGrowth == 0 && p.maxThrashing >= 0
    && p.initDirect == n && p.initKswapd == 0 && p.initPgrefill == 0 && p.initThrottle == 0 && p.initCompactStall == 0
  }

  /** Besides, no death is awaited and no kill was made by the cycle before. */
  predicate Calm(d: Daemon, n: int) {
    d.reg.lastKill < 0 && !d.psi.killing && Steady(d.psi, n)
  }

  lemma CalmThrash(p: Psi, vm: VmStat, now: int, cfg: Settings)
    requires p.initRefault == 0 && p.prevGrowth == 0 && p.maxThrashing >= 0 && p.limit >= 0 && vm.refault == 0
    ensures var th := Thrash(p, vm, now, cfg);
            && th.thrashing == 0 && th.p.limit >= 0
            && th.p == p.(prevRefault := 0, baseFileLru := th.p.baseFileLru, resetTm := th.p.resetTm, limit := th.p.limit)
  {
    assert Growth(p, vm) == 0;
  }

  /** A look above every watermark, without thrashing: nothing is decided. */
  lemma CalmVerdict(wbf: int, firstKill: bool, f: Facts, now: int, n: int, cfg: Settings)
    requires f.thrashing == 0 && f.limit >= 0 && f.rs == DirectReclaim && f.directMs == 0 && !f.mem.swapIsLow
    ensures Passes(wbf, firstKill, false, f, Look(now, n, true), cfg)
            == Verdict(Decision(NoReason, 0, false, false), false, firstKill, true)
  {
    assert WatermarkOf(Look(now, n, true).first.value, wbf, f, cfg) == WmarkNone;
  }

  /** A handler that sees another stall in direct reclaim, and no low watermark. */
  lemma DirectCycle(d: Daemon, level: int, events: bool, now: int, n: int, cfg: Settings)
    requires WellFormed(d.reg) && Sane(cfg) && d.reg.lastKill < 0 && Steady(d.psi, n)
    ensures var b := Handle(d, level, events, Look(now, n + 1, true), cfg);
            && !b.early && b.rs == DirectReclaim && Calm(b.d, n + 1) && b.d.reg == d.reg
            && b.d.poll == d.poll.(update := DoNotChange)
            && b.d.up == if level < VMPRESS_LEVEL_CRITICAL then d.up.(flag := true) else d.up
  {
    hide Thrash, FindAndKill, Elapsed, Shape, FdsOwned, Passes, KillBoost, AfterScan, MinScore;
    var e := Entered(d, level, events, cfg);
    var r := Look(now, n + 1, true);
    var p2 := AfterReclaim(AfterKill(e.psi, r.vm.value, now), r.vm.value, DirectReclaim);
    CalmThrash(p2, r.vm.value, now, cfg);
    var th := Thrash(p2, r.vm.value, now, cfg);
    CalmVerdict(e.wbf, th.p.firstKill,
                FactsOf(th.p.limit, e.psi.killing, level, events, DirectReclaim, false, th.thrashing, r.vm.value, r.mem.value, r, cfg),
                now, n + 1, cfg);
  }

  lemma IdleCycle(d: Daemon, level: int, events: bool, now: int, n: int, cfg: Settings)
    requires WellFormed(d.reg) && Sane(cfg) && Calm(d, n)
    ensures var b := Handle(d, level, events, Look(now, n, false), cfg);
            !b.early && b.rs == NoReclaim && b.d == Entered(d, level, events, cfg)
  {
    hide Thrash, FindAndKill, Elapsed, Passes;
  }

  lemma BlindCycle(d: Daemon, level: int, events: bool, now: int, n: int, cfg: Settings)
    requires WellFormed(d.reg) && Sane(cfg) && Calm(d, n)
    ensures var b := Handle(d, level, events, Blind(now), cfg);
            b.early && b.d == Entered(d, level, events, cfg)
  {
    hide Measure, Elapsed;
  }

  // ---------- one event of those runs ----------

  /** The counters after the event is counted and before its handler runs. */
  function Count(s: Sys, ev: Event, cfg: Settings): Upgrade {
    Counted(s.d, ev, cfg).up
  }

  lemma DirectStep(s: Sys, ev: Event, n: int, cfg: Settings)
    requires WellFormed(s.d.reg) && Sane(cfg) && Enabled(s, ev, cfg) && RunsHandler(s.d, ev) && Calm(s.d, n)
    requires LevelOf(s.d, ev) == VMPRESS_LEVEL_MEDIUM && ev.r == Look(ev.now, n + 1, true)
    requires s.d.poll.poll in {None, Some(VMPRESS_LEVEL_MEDIUM)}
    ensures Decides(s.d, ev, cfg) <==> Count(s, ev, cfg).count >= cfg.contThresh
    ensures var d := Step(s, ev, cfg).d;
            var u := Count(s, ev, cfg).(flag := true);
            && Calm(d, n + 1) && d.reg == s.d.reg && d.poll.startTm == ev.now
            && d.up == (if Decides(s.d, ev, cfg) then u.(count := 0) else u)
            && d.poll.poll == Some(if Decides(s.d, ev, cfg) then VMPRESS_LEVEL_CRITICAL else VMPRESS_LEVEL_MEDIUM)
  {
    hide Handle, CheckCont, Elapsed, Shape, FdsOwned;
    DirectCycle(Counted(s.d, ev, cfg), VMPRESS_LEVEL_MEDIUM, ev.Pressure?, ev.now, n, cfg);
  }

  lemma IdleDecides(s: Sys, ev: Event, n: int, cfg: Settings)
    requires WellFormed(s.d.reg) && Sane(cfg) && ev.Pressure? && Calm(s.d, n) && ev.r == Look(ev.now, n, false)
    ensures Decides(s.d, ev, cfg) <==> Count(s, ev, cfg).count >= cfg.contThresh
  {
    hide Handle, CheckCont, Elapsed, Shape, FdsOwned;
    IdleCycle(Counted(s.d, ev, cfg), ev.level, true, ev.now, n, cfg);
  }

  lemma BlindStep(s: Sys, ev: Event, n: int, cfg: Settings)
    requires WellFormed(s.d.reg) && Sane(cfg) && Enabled(s, ev, cfg) && ev.Pressure? && Calm(s.d, n) && ev.r == Blind(ev.now)
    requires Elapsed(s.d.poll.startTm, ev.now) <= cfg.windowMs
    ensures !Decides(s.d, ev, cfg)
    ensures var d := Step(s, ev, cfg).d;
            && Calm(d, n) && d.up == Count(s, ev, cfg)
            && d.poll.poll == s.d.poll.poll && d.poll.startTm == s.d.poll.startTm
  {
    hide Handle, CheckCont, Elapsed, Shape, FdsOwned;
    BlindCycle(Counted(s.d, ev, cfg), ev.level, true, ev.now, n, cfg);
  }

  lemma ElapsedMs(from: int, ms: int)
    ensures Elapsed(from, from + ms * NS_PER_MS) == ms
  {
    ElapsedBounds(from, from + ms * NS_PER_MS);
  }

  // ---------- threshold 1 ----------

  /** Just over n windows. */
  function Tick(n: int, cfg: Settings): int {
    n * (cfg.windowMs + 1) * NS_PER_MS
  }

  lemma Ticks(cfg: Settings)
    ensures Elapsed(0, Tick(1, cfg)) == cfg.windowMs + 1 && Elapsed(0, Tick(2, cfg)) == 2 * (cfg.windowMs + 1)
    ensures Elapsed(Tick(1, cfg), Tick(2, cfg)) == cfg.windowMs + 1
    ensures Elapsed(Tick(1, cfg), Tick(1, cfg)) == 0 && Elapsed(Tick(2, cfg), Tick(2, cfg)) == 0
    ensures 0 < Tick(1, cfg) < Tick(2, cfg)
  {
    var ms := cfg.windowMs + 1;
    ElapsedMs(0, ms);
    ElapsedMs(0, 2 * ms);
    ElapsedMs(Tick(1, cfg), ms);
    ElapsedMs(Tick(1, cfg), 0);
    ElapsedMs(Tick(2, cfg), 0);
  }

  predicate Coincident(cfg: Settings) {
    Sane(cfg) && cfg.contThresh == 1 && cfg.windowMs >= 1
  }

  /** The run: a stall, an event counted whose handler fails, a stall seen by a poll, two events. */
  function Events(cfg: Settings): seq<Event> {
    var (t1, t2) := (Tick(1, cfg), Tick(2, cfg));
    [Pressure(VMPRESS_LEVEL_MEDIUM, t1, Look(t1, 1, true), t1),
     Pressure(VMPRESS_LEVEL_MEDIUM, t1, Blind(t1), t1),
     PollTurn(Look(t2, 2, true), t2),
     Pressure(VMPRESS_LEVEL_CRITICAL, t2, Blind(t2), t2),
     Pressure(VMPRESS_LEVEL_CRITICAL, t2, Look(t2, 2, false), t2)]
  }

  ghost predicate Stage(s: Sys, n: int, t: int, level: Option<int>, u: Upgrade) {
    && WellFormed(s.d.reg) && Calm(s.d, n) && s.clock == t && s.d.poll.poll == level && s.d.up == u
    && (level.Some? ==> s.d.poll.startTm == t)
  }

  lemma Stage1(pidfdSupported: bool, cfg: Settings)
    requires Coincident(cfg)
    ensures var (s, ev, t1) := (Started(pidfdSupported, cfg), Events(cfg)[0], Tick(1, cfg));
            && WellFormed(s.d.reg) && Enabled(s, ev, cfg) && !Decides(s.d, ev, cfg)
            && Stage(Step(s, ev, cfg), 1, t1, Some(VMPRESS_LEVEL_MEDIUM), Upgrade(t1, 0, 0, 0, true))
  {
    hide Step, Elapsed, Shape, FdsOwned, Tick, Decides;
    Ticks(cfg);
    var (s, ev) := (Started(pidfdSupported, cfg), Events(cfg)[0]);
    StepWellFormed(s, ev, cfg);
    DirectStep(s, ev, 0, cfg);
    StepClock(s, ev, cfg);
  }

  lemma Stage2(s: Sys, cfg: Settings)
    requires Coincident(cfg) && Stage(s, 1, Tick(1, cfg), Some(VMPRESS_LEVEL_MEDIUM), Upgrade(Tick(1, cfg), 0, 0, 0, true))
    ensures var (ev, t1) := (Events(cfg)[1], Tick(1, cfg));
            && Enabled(s, ev, cfg) && !Decides(s.d, ev, cfg)
            && Stage(Step(s, ev, cfg), 1, t1, Some(VMPRESS_LEVEL_MEDIUM), Upgrade(t1, 0, t1, 1, false))
  {
    hide Step, Elapsed, Shape, FdsOwned, Tick, Decides;
    Ticks(cfg);
    var ev := Events(cfg)[1];
    StepWellFormed(s, ev, cfg);
    BlindStep(s, ev, 1, cfg);
    StepClock(s, ev, cfg);
  }

  lemma Stage3(s: Sys, cfg: Settings)
    requires Coincident(cfg) && Stage(s, 1, Tick(1, cfg), Some(VMPRESS_LEVEL_MEDIUM), Upgrade(Tick(1, cfg), 0, Tick(1, cfg), 1, false))
    ensures var (ev, t1, t2) := (Events(cfg)[2], Tick(1, cfg), Tick(2, cfg));
            && Enabled(s, ev, cfg) && Decides(s.d, ev, cfg)
            && Stage(Step(s, ev, cfg), 2, t2, Some(VMPRESS_LEVEL_CRITICAL), Upgrade(t1, 0, t1, 0, true))
  {
    hide Step, Elapsed, Shape, FdsOwned, Tick, Decides;
    Ticks(cfg);
    var ev := Events(cfg)[2];
    StepWellFormed(s, ev, cfg);
    DirectStep(s, ev, 1, cfg);
    StepClock(s, ev, cfg);
  }

  lemma Stage4(s: Sys, cfg: Settings)
    requires Coincident(cfg) && Stage(s, 2, Tick(2, cfg), Some(VMPRESS_LEVEL_CRITICAL), Upgrade(Tick(1, cfg), 0, Tick(1, cfg), 0, true))
    ensures var (ev, t1, t2) := (Events(cfg)[3], Tick(1, cfg), Tick(2, cfg));
            && Enabled(s, ev, cfg) && !Decides(s.d, ev, cfg)
            && Stage(Step(s, ev, cfg), 2, t2, Some(VMPRESS_LEVEL_CRITICAL), Upgrade(t1, t2, t1, 0, true))
  {
    hide Step, Elapsed, Shape, FdsOwned, Tick, Decides;
    Ticks(cfg);
    var ev := Events(cfg)[3];
    StepWellFormed(s, ev, cfg);
    BlindStep(s, ev, 2, cfg);
    StepClock(s, ev, cfg);
  }

  lemma Stage5(s: Sys, cfg: Settings)
    requires Coincident(cfg) && Stage(s, 2, Tick(2, cfg), Some(VMPRESS_LEVEL_CRITICAL), Upgrade(Tick(1, cfg), Tick(2, cfg), Tick(1, cfg), 0, true))
    ensures Enabled(s, Events(cfg)[4], cfg) && Decides(s.d, Events(cfg)[4], cfg)
  {
    hide Step, Elapsed, Shape, FdsOwned, Tick, Decides;
    Ticks(cfg);
    IdleDecides(s, Events(cfg)[4], 2, cfg);
  }

  lemma StepClock(s: Sys, ev: Event, cfg: Settings)
    requires WellFormed(s.d.reg) && Sane(cfg) && Enabled(s, ev, cfg)
    ensures Step(s, ev, cfg).clock == ClockAfter(s.clock, ev)
  {
  }

  /** At threshold 1 two upgrades can coincide, whatever the window. */
  lemma CoincidingUpgrades(pidfdSupported: bool, cfg: Settings) returns (ss: seq<Sys>, evs: seq<Event>, trs: seq<Trace>)
    requires Coincident(cfg)
    ensures UpgradesAgain(ss, evs, trs, 4, pidfdSupported, cfg)
    ensures evs[4].r.now == trs[4].since && evs[4].r.now.Some?
  {
    hide Step, Shape, FdsOwned, Tick, Enabled, Decides, BodyOf, CheckCont;
    evs := Events(cfg);
    var s0 := Started(pidfdSupported, cfg);
    Stage1(pidfdSupported, cfg);
    var s1 := Step(s0, evs[0], cfg);
    Stage2(s1, cfg);
    var s2 := Step(s1, evs[1], cfg);
    Stage3(s2, cfg);
    var s3 := Step(s2, evs[2], cfg);
    Stage4(s3, cfg);
    var s4 := Step(s3, evs[3], cfg);
    Stage5(s4, cfg);
    ss := [s0, s1, s2, s3, s4, Step(s4, evs[4], cfg)];
    var r1 := TraceStep(Trace(None, 0, 0), s0.d, evs[0], cfg);
    var r2 := TraceStep(r1, s1.d, evs[1], cfg);
    var r3 := TraceStep(r2, s2.d, evs[2], cfg);
    var r4 := TraceStep(r3, s3.d, evs[3], cfg);
    trs := [Trace(None, 0, 0), r1, r2, r3, r4, TraceStep(r4, s4.d, evs[4], cfg)];
    forall k | 0 <= k < 5 ensures StepAt(ss, evs, k, cfg) && TracesAt(ss, evs, trs, k, cfg) {
      if k == 0 {} else if k == 1 {} else if k == 2 {} else if k == 3 {} else {}
    }
  }

  // ---------- thresholds below 1 ----------

  lemma IdleStep(s: Sys, ev: Event, n: int, cfg: Settings)
    requires WellFormed(s.d.reg) && Sane(cfg) && Enabled(s, ev, cfg)
    requires ev.Pressure? && Calm(s.d, n) && ev.r == Look(ev.now, n, false)
    ensures var d := Step(s, ev, cfg).d;
            && Calm(d, n) && d.reg == s.d.reg
            && (!Decides(s.d, ev, cfg) && NotBelowPolled(s.d.poll, ev.level) ==>
                  d.up == Count(s, ev, cfg) && d.poll.poll == Some(ev.level))
  {
    hide Handle, CheckCont, Elapsed, Shape, FdsOwned;
    IdleCycle(Counted(s.d, ev, cfg), ev.level, true, ev.now, n, cfg);
  }

  /** With a threshold below 1 every event upgrades, so without a window two can do so at once. */
  lemma UpgradesAtOnce(pidfdSupported: bool, cfg: Settings) returns (ss: seq<Sys>, evs: seq<Event>, trs: seq<Trace>)
    requires Sane(cfg) && cfg.contThresh <= 0 && cfg.windowMs == 0
    ensures UpgradesAgain(ss, evs, trs, 1, pidfdSupported, cfg) && |evs| == 2 && evs[0] == evs[1]
    ensures evs[1].r.now == trs[1].since && evs[1].r.now.Some?
  {
    var ev := Pressure(VMPRESS_LEVEL_MEDIUM, 0, Look(0, 0, false), 0);
    evs := [ev, ev];
    var s0 := Started(pidfdSupported, cfg);
    assert Enabled(s0, ev, cfg);
    hide Step, Shape, FdsOwned, Elapsed, Decides, BodyOf;
    BootSpaced(pidfdSupported, cfg);
    StepWellFormed(s0, ev, cfg);
    StepClock(s0, ev, cfg);
    IdleStep(s0, ev, 0, cfg);
    IdleDecides(s0, ev, 0, cfg);
    CountNotNegative(s0, ev, Trace(None, 0, 0), cfg);
    var s1 := Step(s0, ev, cfg);
    StepSpaced(s0, ev, Trace(None, 0, 0), cfg);
    var r1 := TraceStep(Trace(None, 0, 0), s0.d, ev, cfg);
    IdleDecides(s1, ev, 0, cfg);
    CountNotNegative(s1, ev, r1, cfg);
    ss := [s0, s1, Step(s1, ev, cfg)];
    trs := [Trace(None, 0, 0), r1, TraceStep(r1, s1.d, ev, cfg)];
    forall k | 0 <= k < 2 ensures StepAt(ss, evs, k, cfg) && TracesAt(ss, evs, trs, k, cfg) {
      if k == 0 {} else {}
    }
  }

  lemma CountNotNegative(s: Sys, ev: Event, tr: Trace, cfg: Settings)
    requires WellFormed(s.d.reg) && Sane(cfg) && Enabled(s, ev, cfg) && RunsHandler(s.d, ev) && Spaced(s.d.up, tr, s.clock, cfg)
    ensures Count(s, ev, cfg).count >= 0
  {
    hide CheckCont, Shape, FdsOwned;
    CountedSpaced(s, ev, tr, cfg);
  }

  // ---------- the bound is exact ----------

  /** Event k is more than (threshold - 1) windows after the upgrade before it. */
  predicate FarApart(evs: seq<Event>, trs: seq<Trace>, k: nat, cfg: Settings) {
    && k < |evs| && k < |trs| && (evs[k].Pressure? || evs[k].PollTurn?) && evs[k].r.now.Some? && trs[k].since.Some?
    && evs[k].r.now.value - trs[k].since.value > Windows(cfg.contThresh - 1, cfg)
  }

  /** On every run from the start, successive upgrades are more than (threshold - 1) windows apart. */
  ghost predicate AlwaysStrict(cfg: Settings) {
    forall ss, evs, trs, k: nat, pidfdSupported ::
      UpgradesAgain(ss, evs, trs, k, pidfdSupported, cfg) ==> FarApart(evs, trs, k, cfg)
  }

  /**
   Successive upgrades are strictly more than (threshold - 1) windows apart on every run if and
   only if the threshold is at least 2, or there is no window at threshold 1, or there is one at
   a threshold below 1.
   */
  lemma StrictIff(cfg: Settings)
    requires Sane(cfg)
    ensures AlwaysStrict(cfg) <==> StrictFor(cfg)
  {
    hide UpgradesAgain;
    if StrictFor(cfg) {
      forall ss, evs, trs, k: nat, pidfdSupported | UpgradesAgain(ss, evs, trs, k, pidfdSupported, cfg)
        ensures FarApart(evs, trs, k, cfg)
      {
        AgainHandles(ss, evs, trs, k, pidfdSupported, cfg);
        RunUpgradesApart(ss, evs, trs, k, pidfdSupported, cfg);
      }
    } else if cfg.contThresh == 1 {
      var ss, evs, trs := CoincidingUpgrades(true, cfg);
      assert !FarApart(evs, trs, 4, cfg);
    } else {
      var ss, evs, trs := UpgradesAtOnce(true, cfg);
      assert !FarApart(evs, trs, 1, cfg);
    }
  }

  lemma AgainHandles(ss: seq<Sys>, evs: seq<Event>, trs: seq<Trace>, k: nat, pidfdSupported: bool, cfg: Settings)
    requires UpgradesAgain(ss, evs, trs, k, pidfdSupported, cfg)
    ensures k < |evs| && k < |trs| && (evs[k].Pressure? || evs[k].PollTurn?) && trs[k].since.Some?
  {
  }
}
